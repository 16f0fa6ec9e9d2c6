/** The error correction codewords of a QR code block: division of polynomials over the field of 256 elements.
  * Section 7.5.2 of ISO/IEC 18004:2015. Coefficients are listed from the highest power down. */
module ReedSolomon {
  import opened Galois

  // --- Polynomials ---

  function Zeros(n: nat): (z: seq<Elem>)
    ensures |z| == n && forall i | 0 <= i < n :: z[i] == ZERO
  {
    seq(n, _ => ZERO)
  }

  /** The sum of two polynomials of the same length. */
  function Sum(p: seq<Elem>, q: seq<Elem>): (s: seq<Elem>)
    requires |p| == |q|
    ensures |s| == |p| && forall i | 0 <= i < |p| :: s[i] == Add(p[i], q[i])
  {
    seq(|p|, i requires 0 <= i < |p| => Add(p[i], q[i]))
  }

  function Scale(c: Elem, p: seq<Elem>): (s: seq<Elem>)
    ensures |s| == |p| && forall i | 0 <= i < |p| :: s[i] == Mul(c, p[i])
  {
    seq(|p|, i requires 0 <= i < |p| => Mul(c, p[i]))
  }

  /** The product of two polynomials. */
  function PolyMul(q: seq<Elem>, g: seq<Elem>): (p: seq<Elem>)
    requires |g| > 0
    ensures |p| == |q| + |g| - 1
  {
    if q == [] then Zeros(|g| - 1) else
    var n := |q| - 1;
    Sum(PolyMul(q[..n], g) + [ZERO], Zeros(n) + Scale(q[n], g))
  }

  /** The polynomial's value at a. */
  function Eval(p: seq<Elem>, a: Elem): Elem
  {
    if p == [] then ZERO else Add(Mul(Eval(p[..|p| - 1], a), a), p[|p| - 1])
  }

  // --- Values ---

  lemma EvalSnoc(p: seq<Elem>, c: Elem, a: Elem)
    ensures Eval(p + [c], a) == Add(Mul(Eval(p, a), a), c)
  {
    hide Add, Mul;
    assert (p + [c])[..|p|] == p;
  }

  lemma {:induction false} EvalSum(p: seq<Elem>, q: seq<Elem>, a: Elem)
    requires |p| == |q|
    ensures Eval(Sum(p, q), a) == Add(Eval(p, a), Eval(q, a))
  {
    if p == [] {
      AddZero(ZERO);
    } else {
      hide Add, Mul;
      var n := |p| - 1;
      var p', q' := p[..n], q[..n];
      EvalSum(p', q', a);
      assert Sum(p, q)[..n] == Sum(p', q');
      MulAdds(Eval(p', a), Eval(q', a), a);
      Exchange(Mul(Eval(p', a), a), Mul(Eval(q', a), a), p[n], q[n]);
    }
  }

  lemma {:induction false} EvalScale(c: Elem, p: seq<Elem>, a: Elem)
    ensures Eval(Scale(c, p), a) == Mul(c, Eval(p, a))
  {
    hide Add, Mul;
    if p == [] {
      MulZero(c);
      MulCommutes(c, ZERO);
    } else {
      var n := |p| - 1;
      EvalScale(c, p[..n], a);
      assert Scale(c, p)[..n] == Scale(c, p[..n]);
      MulAssociates(c, Eval(p[..n], a), a);
      MulAdds(Mul(Eval(p[..n], a), a), p[n], c);
    }
  }

  lemma {:induction false} EvalZeros(n: nat, a: Elem)
    ensures Eval(Zeros(n), a) == ZERO
  {
    hide Add, Mul;
    if n > 0 {
      EvalZeros(n - 1, a);
      assert Zeros(n)[..n - 1] == Zeros(n - 1);
      MulZero(a);
      AddZero(ZERO);
    }
  }

  lemma {:induction false} EvalPadded(n: nat, p: seq<Elem>, a: Elem)
    ensures Eval(Zeros(n) + p, a) == Eval(p, a)
  {
    hide Add, Mul;
    if p == [] {
      assert Zeros(n) + p == Zeros(n);
      EvalZeros(n, a);
    } else {
      var m := |p| - 1;
      EvalPadded(n, p[..m], a);
      assert (Zeros(n) + p)[..n + m] == Zeros(n) + p[..m];
    }
  }

  /** (u g) a + c g is (u a + c) g. */
  lemma Distributes(u: Elem, c: Elem, g: Elem, a: Elem)
    ensures Add(Add(Mul(Mul(u, g), a), ZERO), Mul(c, g)) == Mul(Add(Mul(u, a), c), g)
  {
    hide Add, Mul;
    AddZero(Mul(Mul(u, g), a));
    MulAssociates(u, g, a);
    MulCommutes(g, a);
    MulAssociates(u, a, g);
    MulAdds(Mul(u, a), c, g);
  }

  /** The value of a product is the product of the values. */
  lemma {:induction false} EvalMul(q: seq<Elem>, g: seq<Elem>, a: Elem)
    requires |g| > 0
    ensures Eval(PolyMul(q, g), a) == Mul(Eval(q, a), Eval(g, a))
  {
    hide Add, Mul;
    if q == [] {
      EvalZeros(|g| - 1, a);
      MulZero(Eval(g, a));
    } else {
      var n := |q| - 1;
      EvalMul(q[..n], g, a);
      EvalSum(PolyMul(q[..n], g) + [ZERO], Zeros(n) + Scale(q[n], g), a);
      EvalSnoc(PolyMul(q[..n], g), ZERO, a);
      EvalPadded(n, Scale(q[n], g), a);
      EvalScale(q[n], g, a);
      Distributes(Eval(q[..n], a), q[n], Eval(g, a), a);
    }
  }

  // --- The generator polynomial ---

  /** 2 to the i. */
  function Root(i: nat): Elem
  {
    if i == 0 then ONE else Mul(Root(i - 1), TWO)
  }

  /** The product of x - 2^i for i below d. Minus is plus in this field. */
  function Generator(d: nat): (p: seq<Elem>)
    ensures |p| == d + 1
  {
    if d == 0 then [ONE] else PolyMul(Generator(d - 1), [ONE, Root(d - 1)])
  }

  lemma MulOne(x: Elem)
    ensures Mul(x, ONE) == x && Mul(ONE, x) == x
  {
    hide Mul;
    OneLeft(x);
    MulCommutes(x, ONE);
  }

  lemma MulZeros(x: Elem)
    ensures Mul(x, ZERO) == ZERO && Mul(ZERO, x) == ZERO
  {
    hide Mul;
    MulZero(x);
    MulCommutes(x, ZERO);
  }

  lemma EvalFactor(r: Elem, a: Elem)
    ensures Eval([ONE, r], a) == Add(a, r)
  {
    hide Add, Mul;
    EvalSnoc([], ONE, a);
    EvalSnoc([ONE], r, a);
    assert [] + [ONE] == [ONE] && [ONE] + [r] == [ONE, r];
    MulZeros(a);
    AddZero(ONE);
    MulOne(a);
  }

  lemma {:induction false} GeneratorVanishes(d: nat, k: nat)
    requires k < d
    ensures Eval(Generator(d), Root(k)) == ZERO
  {
    hide Add, Mul, PolyMul, Eval, Root;
    var a := Root(k);
    EvalMul(Generator(d - 1), [ONE, Root(d - 1)], a);
    EvalFactor(Root(d - 1), a);
    if k == d - 1 {
      AddZero(a);
      MulZeros(Eval(Generator(d - 1), a));
    } else {
      GeneratorVanishes(d - 1, k);
      MulZeros(Add(a, Root(d - 1)));
    }
  }

  /** p times x - r, coefficient by coefficient. */
  function TimesFactor(p: seq<Elem>, r: Elem): (t: seq<Elem>)
    ensures |t| == |p| + 1
  {
    Sum(p + [ZERO], [ZERO] + Scale(r, p))
  }

  lemma {:induction false} MulFactor(p: seq<Elem>, r: Elem)
    ensures PolyMul(p, [ONE, r]) == TimesFactor(p, r)
  {
    hide Add, Mul;
    var g := [ONE, r];
    if p == [] {
      AddZero(ZERO);
      assert Zeros(1) == TimesFactor([], r);
    } else {
      var n := |p| - 1;
      MulFactor(p[..n], r);
      MulOne(p[n]);
      MulCommutes(p[n], r);
      FactorStep(p[..n], r, p[n]);
      assert p == p[..n] + [p[n]];
    }
  }

  lemma FactorStep(p: seq<Elem>, r: Elem, c: Elem)
    requires Mul(c, ONE) == c && Mul(c, r) == Mul(r, c)
    ensures Sum(TimesFactor(p, r) + [ZERO], Zeros(|p|) + Scale(c, [ONE, r])) == TimesFactor(p + [c], r)
  {
    hide Add, Mul, PolyMul;
    var n := |p|;
    var before := TimesFactor(p, r);
    var left := Sum(before + [ZERO], Zeros(n) + Scale(c, [ONE, r]));
    var right := TimesFactor(p + [c], r);
    forall k | 0 <= k < |left|
      ensures left[k] == right[k]
    {
      if k < n {
        AddZero(before[k]);
        assert ([ZERO] + Scale(r, p + [c]))[k] == ([ZERO] + Scale(r, p))[k];
      } else if k == n {
        var low := ([ZERO] + Scale(r, p))[n];
        assert ([ZERO] + Scale(r, p + [c]))[n] == low;
        AddZero(low);
        AddOrder(low, c, ZERO);
      }
    }
  }

  /** The d lowest coefficients of p. */
  function Low(p: seq<Elem>, d: nat): (l: seq<Elem>)
    ensures |l| == d
  {
    (Zeros(d) + p)[|p|..]
  }

  lemma LowOfFactor(p: seq<Elem>, r: Elem, d: nat, j: nat)
    requires j < d
    ensures Low(TimesFactor(p, r), d)[j]
         == Add(Mul(Low(p, d)[j], r), if j + 1 < d then Low(p, d)[j + 1] else ZERO)
  {
    hide Add, Mul;
    var c := Low(p, d)[j];
    var next := if j + 1 < d then Low(p, d)[j + 1] else ZERO;
    MulCommutes(c, r);
    MulZeros(r);
    AddOrder(next, Mul(r, c), ZERO);
    AddZero(ZERO);
    AddZero(next);
    var k := |p| + 1 + j;
    assert Low(TimesFactor(p, r), d)[j] == (Zeros(d) + TimesFactor(p, r))[k];
    if k < d {
    } else {
      assert (p + [ZERO])[k - d] == next;
      assert ([ZERO] + Scale(r, p))[k - d] == Mul(r, c);
    }
  }

  /** reedSolomonComputeDivisor: the generator polynomial without its leading term, which is 1. */
  method ComputeDivisor(degree: int) returns (ok: bool, result: array<Elem>)
    ensures fresh(result) && (ok <==> 1 <= degree <= 255)
    ensures ok ==> result.Length == degree && [ONE] + result[..] == Generator(degree)
  {
    hide Add, Mul, Generator, PolyMul;
    ok := 1 <= degree <= 255;
    if !ok {
      result := new Elem[0];
      return;
    }
    result := new Elem[degree](_ => ZERO);
    result[degree - 1] := ONE;
    var root := ONE;
    GeneratorStarts(degree);
    assert result[..] == Low(Generator(0), degree);
    for i := 0 to degree
      invariant result[..] == Low(Generator(i), degree)
      invariant root == Root(i)
    {
      ghost var p := Generator(i);
      for j := 0 to degree
        invariant forall k | 0 <= k < j :: result[k] == Low(TimesFactor(p, root), degree)[k]
        invariant forall k | j <= k < degree :: result[k] == Low(p, degree)[k]
      {
        LowOfFactor(p, root, degree, j);
        var product := Multiply(result[j], root);
        result[j] := product;
        if j + 1 < degree {
          result[j] := Add(result[j], result[j + 1]);
        } else {
          AddZero(product);
        }
      }
      GeneratorGrows(i);
      assert result[..] == Low(Generator(i + 1), degree);
      root := Multiply(root, TWO);
    }
    GeneratorIsMonic(degree);
    assert Low(Generator(degree), degree) == Generator(degree)[1..];
  }

  lemma GeneratorStarts(d: nat)
    requires d > 0
    ensures Low(Generator(0), d) == Zeros(d - 1) + [ONE]
  {
  }

  lemma GeneratorGrows(i: nat)
    ensures Generator(i + 1) == TimesFactor(Generator(i), Root(i))
  {
    hide PolyMul, TimesFactor, Mul, Add;
    MulFactor(Generator(i), Root(i));
  }

  lemma {:induction false} GeneratorIsMonic(d: nat)
    ensures Generator(d)[0] == ONE
  {
    hide Add, Mul;
    if d > 0 {
      GeneratorIsMonic(d - 1);
      GeneratorGrows(d - 1);
      AddZero(ONE);
    }
  }

  // --- Division ---

  /** The quotient and the remainder of data(x) x^d by x^d + divisor(x). */
  function Divide(data: seq<Elem>, divisor: seq<Elem>): (r: (seq<Elem>, seq<Elem>))
    requires |divisor| > 0
    ensures |r.0| == |data| && |r.1| == |divisor|
  {
    if data == [] then ([], Zeros(|divisor|)) else
    var n := |data| - 1;
    var before := Divide(data[..n], divisor);
    var factor := Add(data[n], before.1[0]);
    (before.0 + [factor], Sum(before.1[1..] + [ZERO], Scale(factor, divisor)))
  }

  function Remainder(data: seq<Elem>, divisor: seq<Elem>): (r: seq<Elem>)
    requires |divisor| > 0
    ensures |r| == |divisor|
  {
    Divide(data, divisor).1
  }

  /** What one more coefficient makes of a product that was data and the remainder so far. */
  lemma DivideStep(data: seq<Elem>, rest: seq<Elem>, divisor: seq<Elem>, factor: Elem)
    requires |rest| == |divisor| > 0
    ensures Sum(data + rest + [ZERO], Zeros(|data|) + Scale(factor, [ONE] + divisor))
         == data + [Add(rest[0], factor)] + Sum(rest[1..] + [ZERO], Scale(factor, divisor))
  {
    hide Add, Mul;
    var n := |data|;
    var left := Sum(data + rest + [ZERO], Zeros(n) + Scale(factor, [ONE] + divisor));
    var right := data + [Add(rest[0], factor)] + Sum(rest[1..] + [ZERO], Scale(factor, divisor));
    MulOne(factor);
    forall k | 0 <= k < |left|
      ensures left[k] == right[k]
    {
      if k < n {
        AddZero(data[k]);
      } else if k > n {
        assert (data + rest + [ZERO])[k] == (rest[1..] + [ZERO])[k - n - 1];
        assert Scale(factor, [ONE] + divisor)[k - n] == Scale(factor, divisor)[k - n - 1];
      }
    }
  }

  lemma AddBack(r: Elem, b: Elem)
    ensures Add(r, Add(b, r)) == b
    ensures forall f :: Add(r, f) == b ==> f == Add(b, r)
  {
    forall f | Add(r, f) == b
      ensures f == Add(b, r)
    {
      hide Add;
      AddOrder(r, r, f);
      AddOrder(r, b, ZERO);
      AddZero(r);
      AddZero(f);
    }
    hide Add;
    AddOrder(b, r, r);
    AddOrder(r, Add(b, r), r);
    AddOrder(r, r, b);
    AddOrder(b, r, ZERO);
    AddZero(r);
    AddZero(b);
  }

  /** Data followed by its remainder is a multiple of the divisor. */
  lemma {:induction false} Divides(data: seq<Elem>, divisor: seq<Elem>)
    requires |divisor| > 0
    ensures PolyMul(Divide(data, divisor).0, [ONE] + divisor) == data + Remainder(data, divisor)
  {
    hide Add, Mul;
    if data == [] {
      assert [] + Zeros(|divisor|) == Zeros(|divisor|);
    } else {
      var n := |data| - 1;
      var b := data[n];
      var before := Divide(data[..n], divisor);
      Divides(data[..n], divisor);
      AddBack(before.1[0], b);
      var factor := Add(b, before.1[0]);
      DivideStep(data[..n], before.1, divisor, factor);
      assert (before.0 + [factor])[..n] == before.0;
      assert data == data[..n] + [b];
    }
  }

  /** And no other remainder of that length makes it one. */
  lemma {:induction false} DivisionIsUnique(data: seq<Elem>, rest: seq<Elem>, divisor: seq<Elem>, q: seq<Elem>)
    requires |rest| == |divisor| > 0 && |q| == |data|
    requires PolyMul(q, [ONE] + divisor) == data + rest
    ensures q == Divide(data, divisor).0 && rest == Remainder(data, divisor)
  {
    hide Add, Mul, Sum, Scale;
    var g := [ONE] + divisor;
    if data == [] {
      assert data + rest == rest;
    } else {
      var n := |data| - 1;
      var p := PolyMul(q[..n], g);
      var begun, rest' := p[..n], p[n..];
      assert p + [ZERO] == begun + rest' + [ZERO];
      DivideStep(begun, rest', divisor, q[n]);
      assert data == data[..n] + [data[n]];
      PartsAgree(begun, Add(rest'[0], q[n]), Sum(rest'[1..] + [ZERO], Scale(q[n], divisor)), data[..n], data[n], rest);
      assert p == data[..n] + rest';
      DivisionIsUnique(data[..n], rest', divisor, q[..n]);
      AddBack(rest'[0], data[n]);
      assert q == q[..n] + [q[n]];
    }
  }

  lemma PartsAgree(a: seq<Elem>, b: Elem, c: seq<Elem>, a': seq<Elem>, b': Elem, c': seq<Elem>)
    requires |a| == |a'| && a + [b] + c == a' + [b'] + c'
    ensures a == a' && b == b' && c == c'
  {
    var s, n := a + [b] + c, |a|;
    assert s[..n] == a && s[n] == b && s[n + 1..] == c;
    assert s[..n] == a' && s[n] == b' && s[n + 1..] == c';
  }

  /** The remainder is the one polynomial below x^d that makes data a multiple of the divisor. */
  lemma RemainderIsTheOne(data: seq<Elem>, rest: seq<Elem>, divisor: seq<Elem>)
    requires |rest| == |divisor| > 0
    ensures rest == Remainder(data, divisor)
       <==> exists q | |q| == |data| :: PolyMul(q, [ONE] + divisor) == data + rest
  {
    hide Add, Mul, PolyMul, Divide;
    Divides(data, divisor);
    forall q | |q| == |data| && PolyMul(q, [ONE] + divisor) == data + rest
      ensures rest == Remainder(data, divisor)
    {
      DivisionIsUnique(data, rest, divisor, q);
    }
  }

  /** A block with its error correction codewords vanishes at every root of the generator polynomial. */
  lemma CodewordVanishes(data: seq<Elem>, d: nat, divisor: seq<Elem>, k: nat)
    requires k < d && [ONE] + divisor == Generator(d)
    ensures Eval(data + Remainder(data, divisor), Root(k)) == ZERO
  {
    hide Add, Mul, PolyMul, Eval, Generator, Root;
    Divides(data, divisor);
    EvalMul(Divide(data, divisor).0, Generator(d), Root(k));
    GeneratorVanishes(d, k);
    MulZeros(Eval(Divide(data, divisor).0, Root(k)));
  }

  method AddMultiple(rest: seq<Elem>, divisor: seq<Elem>, factor: Elem) returns (result: seq<Elem>)
    requires |rest| == |divisor|
    ensures result == Sum(rest, Scale(factor, divisor))
  {
    hide Add, Mul;
    result := rest;
    for i := 0 to |result|
      invariant |result| == |rest|
      invariant forall k | 0 <= k < i :: result[k] == Add(rest[k], Mul(factor, divisor[k]))
      invariant forall k | i <= k < |rest| :: result[k] == rest[k]
    {
      var product := Multiply(divisor[i], factor);
      MulCommutes(divisor[i], factor);
      result := result[i := Add(result[i], product)];
    }
  }

  /** reedSolomonComputeRemainder. */
  method ComputeRemainder(data: seq<Elem>, divisor: seq<Elem>) returns (result: seq<Elem>)
    requires |divisor| > 0
    ensures result == Remainder(data, divisor)
  {
    hide Add, Mul;
    result := Zeros(|divisor|);
    for n := 0 to |data|
      invariant result == Remainder(data[..n], divisor)
    {
      var factor := Add(data[n], result[0]);
      result := result[1..] + [ZERO];
      result := AddMultiple(result, divisor, factor);
      assert data[..n + 1][..n] == data[..n];
    }
    assert data[..|data|] == data;
  }
}
