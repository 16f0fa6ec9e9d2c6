/** What the error correction of a QR code's block is for: two blocks of different data differ in more places than there
  * are error correction codewords, so fewer wrong ones can be told from right ones, and half as many put right. */
module QrDistance {
  import opened Galois
  import opened ReedSolomon

  // --- The powers of two ---

  lemma {:induction false} RootAdds(i: nat, j: nat)
    ensures Root(i + j) == Mul(Root(i), Root(j))
  {
    hide Mul;
    if j == 0 {
      MulOne(Root(i));
    } else {
      RootAdds(i, j - 1);
      MulAssociates(Root(i), Root(j - 1), TWO);
    }
  }

  lemma Multiplied(i: nat, j: nat, x: Elem, y: Elem, z: Elem)
    requires Root(i) == x && Root(j) == y && Mul(x, y) == z
    ensures Root(i + j) == z
  {
    RootAdds(i, j);
  }

  lemma SmallProducts()
    ensures Mul(TWO, TWO) == Elem(4) && Mul(Elem(4), Elem(4)) == Elem(0x10) && Mul(Elem(0x10), Elem(0x10)) == Elem(0x1D)
    ensures Mul(TWO, Elem(4)) == Elem(8) && Mul(TWO, Elem(0x10)) == Elem(0x20) && Mul(Elem(8), Elem(0x10)) == Elem(0x80)
    ensures Mul(Elem(0x80), Elem(0x1D)) == Elem(0x26)
  {
  }

  lemma Squares()
    ensures Mul(Elem(0x1D), Elem(0x1D)) == Elem(0x4C) && Mul(Elem(0x4C), Elem(0x4C)) == Elem(0x9D)
    ensures Mul(Elem(0x9D), Elem(0x9D)) == Elem(0x5F) && Mul(Elem(0x5F), Elem(0x5F)) == Elem(0x85)
  {
  }

  lemma LargeProducts()
    ensures Mul(Elem(0x4C), Elem(0x9D)) == Elem(0x46) && Mul(Elem(8), Elem(0x46)) == Elem(0x0A)
    ensures Mul(Elem(0x4C), Elem(0x5F)) == Elem(0xFD) && Mul(Elem(0x20), Elem(0xFD)) == Elem(0xD6)
  {
  }

  lemma LastProducts()
    ensures Mul(Elem(0x5F), Elem(0x85)) == Elem(0x82) && Mul(Elem(0x46), Elem(0x82)) == Elem(0x2C)
    ensures Mul(Elem(0x26), Elem(0x2C)) == ONE
  {
  }

  /** 2 to the 255 is one, but not to any 255 divided by a prime. */
  lemma SomeRoots()
    ensures Root(255) == ONE && Root(15) == Elem(0x26) && Root(51) == Elem(0x0A) && Root(85) == Elem(0xD6)
  {
    SmallProducts();
    Squares();
    LargeProducts();
    LastProducts();
    OneLeft(TWO);
    hide Mul;
    assert Root(1) == TWO;
    Multiplied(1, 1, TWO, TWO, Elem(4));
    Multiplied(2, 2, Elem(4), Elem(4), Elem(0x10));
    Multiplied(4, 4, Elem(0x10), Elem(0x10), Elem(0x1D));
    Multiplied(8, 8, Elem(0x1D), Elem(0x1D), Elem(0x4C));
    Multiplied(16, 16, Elem(0x4C), Elem(0x4C), Elem(0x9D));
    Multiplied(32, 32, Elem(0x9D), Elem(0x9D), Elem(0x5F));
    Multiplied(64, 64, Elem(0x5F), Elem(0x5F), Elem(0x85));
    hide Root;
    Multiplied(1, 2, TWO, Elem(4), Elem(8));
    Multiplied(1, 4, TWO, Elem(0x10), Elem(0x20));
    Multiplied(3, 4, Elem(8), Elem(0x10), Elem(0x80));
    Multiplied(7, 8, Elem(0x80), Elem(0x1D), Elem(0x26));
    Multiplied(16, 32, Elem(0x4C), Elem(0x9D), Elem(0x46));
    Multiplied(3, 48, Elem(8), Elem(0x46), Elem(0x0A));
    Multiplied(16, 64, Elem(0x4C), Elem(0x5F), Elem(0xFD));
    Multiplied(5, 80, Elem(0x20), Elem(0xFD), Elem(0xD6));
    Multiplied(64, 128, Elem(0x5F), Elem(0x85), Elem(0x82));
    Multiplied(48, 192, Elem(0x46), Elem(0x82), Elem(0x2C));
    Multiplied(15, 240, Elem(0x26), Elem(0x2C), ONE);
  }

  lemma LastRoot()
    ensures Root(255) == ONE
  {
    SomeRoots();
  }

  /** Euclid: what two powers that are one have in common. */
  lemma {:induction false} CommonPower(m: nat, n: nat) returns (g: nat, a: nat, b: nat)
    requires Root(m) == ONE && Root(n) == ONE && m > 0
    ensures Root(g) == ONE && g > 0 && m == g * a && n == g * b
    decreases m + n
  {
    hide Root, Mul;
    if n == 0 {
      g, a, b := m, 1, 0;
    } else if n >= m {
      RootAdds(n - m, m);
      MulOne(Root(n - m));
      g, a, b := CommonPower(m, n - m);
      b := a + b;
      assert n == g * b;
    } else {
      RootAdds(m - n, n);
      MulOne(Root(m - n));
      g, a, b := CommonPower(m - n, n);
      a := a + b;
      assert m == g * a;
    }
  }

  lemma {:induction false} PowerOfOne(g: nat, n: nat)
    requires Root(g) == ONE
    ensures Root(g * n) == ONE
  {
    hide Mul;
    if n > 0 {
      PowerOfOne(g, n - 1);
      RootAdds(g, g * (n - 1));
      MulOne(ONE);
      assert g + g * (n - 1) == g * n;
    } else {
      assert g * n == 0;
    }
  }

  /** A proper divisor of 255 divides it without one of its primes. */
  lemma ProperDivisor(g: nat, q: nat) returns (n: nat)
    requires g * q == 255 && q > 1
    ensures g * n == 85 || g * n == 51 || g * n == 15
  {
    if q <= 15 {
      assert q == 3 || q == 5 || q == 15;
      n := if q == 5 then 1 else q / 3;
    } else {
      assert g <= 15;
      assert g == 1 || g == 3 || g == 5 || g == 15;
      n := 15 / g;
    }
  }

  lemma FactorAtMost(g: nat, a: nat)
    requires g * a > 0
    ensures g <= g * a
  {
  }

  lemma OneTooEarly(m: nat)
    requires 0 < m < 255 && Root(m) == ONE
    ensures Root(85) == ONE || Root(51) == ONE || Root(15) == ONE
  {
    hide Root, Mul;
    LastRoot();
    var g, a, b := CommonPower(m, 255);
    FactorAtMost(g, a);
    assert g * 1 == g;
    var n := ProperDivisor(g, b);
    PowerOfOne(g, n);
  }

  /** No smaller power is one. */
  lemma OrderIs255(m: nat)
    requires 0 < m < 255
    ensures Root(m) != ONE
  {
    hide Root, Mul;
    SomeRoots();
    if Root(m) == ONE {
      OneTooEarly(m);
      assert false;
    }
  }

  lemma RootIsNotZero(n: nat)
    ensures Root(n) != ZERO
  {
    hide Root, Mul;
    SomeRoots();
    PowerOfOne(255, n + 1);
    RootAdds(n, 254 * n + 255);
    MulZeros(Root(254 * n + 255));
    assert n + (254 * n + 255) == 255 * (n + 1);
  }

  /** The first 255 powers differ. */
  lemma RootsDiffer(i: nat, j: nat)
    requires i < j < 255
    ensures Root(i) != Root(j)
  {
    hide Root, Mul;
    SomeRoots();
    OrderIs255(j - i);
    RootAdds(i, 255 - i);
    RootAdds(j, 255 - i);
    RootAdds(255, j - i);
    MulOne(Root(j - i));
  }

  // --- Every element but zero is one of them ---

  function Value(a: Elem): int { a.bits as int }

  lemma ValuesDiffer(a: Elem, b: Elem)
    requires a != b
    ensures Value(a) != Value(b)
  {
    assert (a.bits as int) as bv8 == a.bits && (b.bits as int) as bv8 == b.bits;
  }

  lemma ValueOfSome(a: Elem)
    requires a != ZERO
    ensures 1 <= Value(a) <= 255
  {
    ValuesDiffer(a, ZERO);
  }

  ghost function RootValues(n: nat): (values: set<int>)
  {
    set i: nat | i < n :: Value(Root(i))
  }

  lemma {:induction false} SizeOfRoots(n: nat)
    requires n <= 255
    ensures |RootValues(n)| == n
  {
    hide Root, Value;
    if n > 0 {
      SizeOfRoots(n - 1);
      forall i: nat | i < n - 1 ensures Value(Root(i)) != Value(Root(n - 1)) {
        RootsDiffer(i, n - 1);
        ValuesDiffer(Root(i), Root(n - 1));
      }
      assert RootValues(n) == RootValues(n - 1) + {Value(Root(n - 1))};
    }
  }

  ghost function UpTo(n: nat): (numbers: set<int>)
    ensures forall k :: k in numbers <==> 1 <= k <= n
  {
    if n == 0 then {} else UpTo(n - 1) + {n}
  }

  lemma {:induction false} SizeUpTo(n: nat)
    ensures |UpTo(n)| == n
  {
    if n > 0 {
      SizeUpTo(n - 1);
    }
  }

  lemma SameSize(a: set<int>, b: set<int>)
    requires a <= b && |a| == |b|
    ensures a == b
  {
    assert |b - a| == |b| - |a|;
  }

  /** Two generates all of the field but zero. */
  lemma EveryElementIsARoot(a: Elem) returns (i: nat)
    requires a != ZERO
    ensures i < 255 && Root(i) == a
  {
    hide Root, Value;
    forall i: nat | i < 255 ensures Value(Root(i)) in UpTo(255) {
      RootIsNotZero(i);
      ValueOfSome(Root(i));
    }
    SizeOfRoots(255);
    SizeUpTo(255);
    SameSize(RootValues(255), UpTo(255));
    ValueOfSome(a);
    assert Value(a) in RootValues(255);
    i :| i < 255 && Value(Root(i)) == Value(a);
    if Root(i) != a {
      ValuesDiffer(Root(i), a);
    }
  }

  /** So a product is only zero if a factor is. */
  lemma NoZeroDivisors(a: Elem, b: Elem)
    ensures Mul(a, b) == ZERO <==> a == ZERO || b == ZERO
  {
    hide Root, Mul;
    if a == ZERO {
      MulZeros(b);
    } else if b == ZERO {
      MulZeros(a);
    } else {
      var i := EveryElementIsARoot(a);
      var j := EveryElementIsARoot(b);
      RootAdds(i, j);
      RootIsNotZero(i + j);
    }
  }

  // --- Independent powers ---

  function Power(a: Elem, i: nat): Elem
  {
    if i == 0 then ONE else Mul(Power(a, i - 1), a)
  }

  /** The sum of cs[k] times xs[k] to the i. */
  function PowerSum(cs: seq<Elem>, xs: seq<Elem>, i: nat): Elem
    requires |cs| == |xs|
  {
    if cs == [] then ZERO else
    var n := |cs| - 1;
    Add(PowerSum(cs[..n], xs[..n], i), Mul(cs[n], Power(xs[n], i)))
  }

  /** Each coefficient times the sum of its place and q. */
  function Weighted(cs: seq<Elem>, xs: seq<Elem>, q: Elem): (ws: seq<Elem>)
    requires |cs| == |xs|
    ensures |ws| == |cs|
  {
    seq(|cs|, k requires 0 <= k < |cs| => Mul(cs[k], Add(xs[k], q)))
  }

  /** c (x + q) x^i is c x^(i+1) and q times c x^i. */
  lemma TermWeighted(c: Elem, x: Elem, q: Elem, i: nat)
    ensures Mul(Mul(c, Add(x, q)), Power(x, i)) == Add(Mul(c, Power(x, i + 1)), Mul(q, Mul(c, Power(x, i))))
  {
    var p := Power(x, i);
    assert Power(x, i + 1) == Mul(p, x);
    hide Mul, Add, Power;
    MulAdds(x, q, c);
    MulAdds(Mul(c, x), Mul(c, q), p);
    MulAssociates(c, x, p);
    MulCommutes(x, p);
    MulCommutes(c, q);
    MulAssociates(q, c, p);
  }

  lemma {:induction false} SumWeighted(cs: seq<Elem>, xs: seq<Elem>, q: Elem, i: nat)
    requires |cs| == |xs|
    ensures PowerSum(Weighted(cs, xs, q), xs, i) == Add(PowerSum(cs, xs, i + 1), Mul(q, PowerSum(cs, xs, i)))
  {
    hide Mul, Add, Power;
    if cs == [] {
      MulZeros(q);
      AddZero(ZERO);
    } else {
      var n := |cs| - 1;
      SumWeighted(cs[..n], xs[..n], q, i);
      assert Weighted(cs, xs, q)[..n] == Weighted(cs[..n], xs[..n], q);
      TermWeighted(cs[n], xs[n], q, i);
      var a, b := PowerSum(cs[..n], xs[..n], i + 1), PowerSum(cs[..n], xs[..n], i);
      var c, d := Mul(cs[n], Power(xs[n], i + 1)), Mul(cs[n], Power(xs[n], i));
      MulAdds(b, d, q);
      Exchange(a, Mul(q, b), c, Mul(q, d));
    }
  }

  lemma SumsAre(a: Elem, b: Elem)
    ensures Add(a, b) == ZERO <==> a == b
  {
  }

  /** Places that differ, no more of them than powers, are independent: if every power sum is zero, so is every
    * coefficient. */
  lemma {:induction false} Independent(cs: seq<Elem>, xs: seq<Elem>, m: nat)
    requires |cs| == |xs| <= m
    requires forall j, k | 0 <= j < k < |xs| :: xs[j] != xs[k]
    requires forall i: nat | i < m :: PowerSum(cs, xs, i) == ZERO
    ensures forall k | 0 <= k < |cs| :: cs[k] == ZERO
    decreases |cs|
  {
    hide Mul, Add, Power;
    if cs != [] {
      var n := |cs| - 1;
      var q, ws := xs[n], Weighted(cs, xs, xs[n]);
      forall i: nat | i < m - 1 ensures PowerSum(ws[..n], xs[..n], i) == ZERO {
        SumWeighted(cs, xs, q, i);
        MulZeros(q);
        AddZero(ZERO);
        LastVanishes(cs, xs, i);
      }
      Independent(ws[..n], xs[..n], m - 1);
      forall k | 0 <= k < n ensures cs[k] == ZERO {
        assert ws[..n][k] == Mul(cs[k], Add(xs[k], q)) == ZERO;
        SumsAre(xs[k], q);
        NoZeroDivisors(cs[k], Add(xs[k], q));
      }
      OnlyLast(cs, xs);
    }
  }

  lemma LastVanishes(cs: seq<Elem>, xs: seq<Elem>, i: nat)
    requires |cs| == |xs| > 0
    ensures var n, ws := |cs| - 1, Weighted(cs, xs, xs[|cs| - 1]);
      PowerSum(ws[..n], xs[..n], i) == PowerSum(ws, xs, i)
  {
    hide Mul, Add, Power;
    var n, ws := |cs| - 1, Weighted(cs, xs, xs[|cs| - 1]);
    AddZero(xs[n]);
    MulZeros(cs[n]);
    MulZeros(Power(xs[n], i));
    AddZero(PowerSum(ws[..n], xs[..n], i));
  }

  lemma OnlyLast(cs: seq<Elem>, xs: seq<Elem>)
    requires |cs| == |xs| > 0 && PowerSum(cs, xs, 0) == ZERO
    requires forall k | 0 <= k < |cs| - 1 :: cs[k] == ZERO
    ensures cs[|cs| - 1] == ZERO
  {
    var n := |cs| - 1;
    assert Power(xs[n], 0) == ONE;
    hide Mul, Add, Power;
    NothingSums(cs[..n], xs[..n]);
    MulOne(cs[n]);
    AddZero(cs[n]);
  }

  lemma {:induction false} NothingSums(cs: seq<Elem>, xs: seq<Elem>)
    requires |cs| == |xs| && forall k | 0 <= k < |cs| :: cs[k] == ZERO
    ensures PowerSum(cs, xs, 0) == ZERO
  {
    hide Mul, Add, Power;
    if cs != [] {
      var n := |cs| - 1;
      NothingSums(cs[..n], xs[..n]);
      MulZeros(Power(xs[n], 0));
      AddZero(ZERO);
    }
  }

  // --- The places where a word is not zero ---

  function Coefs(e: seq<Elem>): seq<Elem>
  {
    if e == [] then [] else
    var n := |e| - 1;
    Coefs(e[..n]) + if e[n] == ZERO then [] else [e[n]]
  }

  /** The power each of them stands for. */
  function Exps(e: seq<Elem>): (x: seq<nat>)
    ensures |x| == |Coefs(e)|
  {
    if e == [] then [] else
    var n := |e| - 1;
    Raised(Exps(e[..n])) + if e[n] == ZERO then [] else [0]
  }

  function Raised(x: seq<nat>): (y: seq<nat>)
    ensures |y| == |x|
  {
    seq(|x|, k requires 0 <= k < |x| => x[k] + 1)
  }

  function Places(x: seq<nat>): (xs: seq<Elem>)
    ensures |xs| == |x|
  {
    seq(|x|, k requires 0 <= k < |x| => Root(x[k]))
  }

  lemma {:induction false} ExpsDescend(e: seq<Elem>)
    ensures forall k | 0 <= k < |Exps(e)| :: Exps(e)[k] < |e|
    ensures forall j, k | 0 <= j < k < |Exps(e)| :: Exps(e)[j] > Exps(e)[k]
    ensures ZERO !in Coefs(e)
  {
    if e != [] {
      ExpsDescend(e[..|e| - 1]);
    }
  }

  lemma {:induction false} PowerMul(a: Elem, b: Elem, i: nat)
    ensures Power(Mul(a, b), i) == Mul(Power(a, i), Power(b, i))
  {
    hide Mul;
    if i == 0 {
      MulOne(ONE);
    } else {
      var p, q := Power(a, i - 1), Power(b, i - 1);
      PowerMul(a, b, i - 1);
      MulAssociates(Mul(p, q), a, b);
      MulAssociates(p, q, a);
      MulCommutes(q, a);
      MulAssociates(p, a, q);
      MulAssociates(Mul(p, a), q, b);
    }
  }

  lemma {:induction false} PowerOfTwo(i: nat)
    ensures Power(TWO, i) == Root(i)
  {
    hide Mul;
    if i > 0 {
      PowerOfTwo(i - 1);
    }
  }

  /** Raising every power by one multiplies the sum by the root. */
  lemma {:induction false} SumRaised(cs: seq<Elem>, x: seq<nat>, i: nat)
    requires |cs| == |x|
    ensures PowerSum(cs, Places(Raised(x)), i) == Mul(PowerSum(cs, Places(x), i), Root(i))
  {
    hide Mul, Add, Power, Root, Raised, Places;
    if cs == [] {
      MulZeros(Root(i));
    } else {
      var n := |cs| - 1;
      SumRaised(cs[..n], x[..n], i);
      PlacesOfFirst(x, n);
      TermRaised(cs[n], x[n], i);
      MulAdds(PowerSum(cs[..n], Places(x[..n]), i), Mul(cs[n], Power(Root(x[n]), i)), Root(i));
    }
  }

  lemma PlacesOfFirst(x: seq<nat>, n: nat)
    requires n < |x|
    ensures Places(Raised(x))[..n] == Places(Raised(x[..n])) && Places(x)[..n] == Places(x[..n])
    ensures Places(Raised(x))[n] == Root(x[n] + 1) && Places(x)[n] == Root(x[n])
  {
    hide Root;
  }

  lemma TermRaised(c: Elem, x: nat, i: nat)
    ensures Mul(c, Power(Root(x + 1), i)) == Mul(Mul(c, Power(Root(x), i)), Root(i))
  {
    assert Root(x + 1) == Mul(Root(x), TWO);
    hide Mul, Power, Root;
    PowerMul(Root(x), TWO, i);
    PowerOfTwo(i);
    MulAssociates(c, Power(Root(x), i), Root(i));
  }

  /** A word's value at a root is the power sum of its places. */
  lemma {:induction false} EvalIsSum(e: seq<Elem>, i: nat)
    ensures Eval(e, Root(i)) == PowerSum(Coefs(e), Places(Exps(e)), i)
  {
    hide Mul, Add, Power, Root;
    if e != [] {
      var n := |e| - 1;
      var cs, x := Coefs(e[..n]), Exps(e[..n]);
      EvalIsSum(e[..n], i);
      SumRaised(cs, x, i);
      if e[n] == ZERO {
        AddZero(Mul(Eval(e[..n], Root(i)), Root(i)));
        assert Coefs(e) == cs && Exps(e) == Raised(x);
      } else {
        SumOneMore(cs, x, e[n], i);
      }
    }
  }

  lemma SumOneMore(cs: seq<Elem>, x: seq<nat>, c: Elem, i: nat)
    requires |cs| == |x|
    ensures PowerSum(cs + [c], Places(Raised(x) + [0]), i) == Add(PowerSum(cs, Places(Raised(x)), i), c)
  {
    assert Root(0) == ONE;
    hide Mul, Add, Root;
    assert (cs + [c])[..|cs|] == cs && Places(Raised(x) + [0])[..|cs|] == Places(Raised(x));
    PowerOfUnit(i);
    MulOne(c);
  }

  lemma {:induction false} PowerOfUnit(i: nat)
    ensures Power(ONE, i) == ONE
  {
    hide Mul;
    if i > 0 {
      PowerOfUnit(i - 1);
      MulOne(ONE);
    }
  }

  // --- Distance ---

  /** In how many places two words differ. */
  function Distance(u: seq<Elem>, v: seq<Elem>): nat
    requires |u| == |v|
  {
    if u == [] then 0 else
    var n := |u| - 1;
    Distance(u[..n], v[..n]) + if u[n] == v[n] then 0 else 1
  }

  lemma {:induction false} DistanceIsCoefs(u: seq<Elem>, v: seq<Elem>)
    requires |u| == |v|
    ensures |Coefs(Sum(u, v))| == Distance(u, v)
    ensures Distance(u, v) == 0 ==> u == v
  {
    if u != [] {
      var n := |u| - 1;
      DistanceIsCoefs(u[..n], v[..n]);
      assert Sum(u, v)[..n] == Sum(u[..n], v[..n]);
      SumsAre(u[n], v[n]);
      hide Add;
      assert u == u[..n] + [u[n]] && v == v[..n] + [v[n]];
    }
  }

  lemma HasZero(cs: seq<Elem>)
    requires forall k | 0 <= k < |cs| :: cs[k] == ZERO
    ensures cs == [] || ZERO in cs
  {
    assert |cs| > 0 ==> cs[0] == ZERO;
  }

  /** A word of at most 255 that vanishes at the first d roots is zero or not zero in more than d places. */
  lemma FewPlacesVanish(e: seq<Elem>, d: nat)
    requires |e| <= 255 && |Coefs(e)| <= d
    requires forall i: nat | i < d :: Eval(e, Root(i)) == ZERO
    ensures Coefs(e) == []
  {
    hide Root, Eval, PowerSum, Coefs, Exps;
    ExpsDescend(e);
    var cs, xs := Coefs(e), Places(Exps(e));
    forall j, k | 0 <= j < k < |xs| ensures xs[j] != xs[k] {
      RootsDiffer(Exps(e)[k], Exps(e)[j]);
    }
    forall i: nat | i < d ensures PowerSum(cs, xs, i) == ZERO {
      EvalIsSum(e, i);
    }
    Independent(cs, xs, d);
    HasZero(cs);
  }

  /** Two blocks with the same number of error correction codewords: if their data differs, the blocks differ in more
    * places than there are of these. */
  lemma BlocksAreFarApart(data: seq<Elem>, other: seq<Elem>, d: nat, divisor: seq<Elem>)
    requires [ONE] + divisor == Generator(d) && |divisor| > 0
    requires |data| == |other| && |data| + d <= 255 && data != other
    ensures Distance(data + Remainder(data, divisor), other + Remainder(other, divisor)) > d
  {
    hide Add, Eval, Generator, Root, Remainder, Coefs, Distance;
    var u, v := data + Remainder(data, divisor), other + Remainder(other, divisor);
    assert |divisor| == d;
    assert u[..|data|] == data && v[..|data|] == other;
    DistanceIsCoefs(u, v);
    if Distance(u, v) <= d {
      forall i: nat | i < d ensures Eval(Sum(u, v), Root(i)) == ZERO {
        CodewordVanishes(data, d, divisor, i);
        CodewordVanishes(other, d, divisor, i);
        EvalSum(u, v, Root(i));
        AddZero(ZERO);
      }
      FewPlacesVanish(Sum(u, v), d);
    }
  }

  lemma {:induction false} Triangle(u: seq<Elem>, r: seq<Elem>, v: seq<Elem>)
    requires |u| == |r| == |v|
    ensures Distance(u, v) <= Distance(u, r) + Distance(r, v)
  {
    if u != [] {
      Triangle(u[..|u| - 1], r[..|u| - 1], v[..|u| - 1]);
    }
  }

  lemma {:induction false} DistanceSwaps(u: seq<Elem>, v: seq<Elem>)
    requires |u| == |v|
    ensures Distance(u, v) == Distance(v, u)
  {
    if u != [] {
      DistanceSwaps(u[..|u| - 1], v[..|u| - 1]);
    }
  }

  /** With at most half as many codewords read wrong as there are for error correction, what is read tells the data. */
  lemma NearestBlockIsUnique(read: seq<Elem>, data: seq<Elem>, other: seq<Elem>, d: nat, divisor: seq<Elem>)
    requires [ONE] + divisor == Generator(d) && |divisor| > 0
    requires |data| == |other| && |read| == |data| + d <= 255
    requires 2 * Distance(data + Remainder(data, divisor), read) <= d
    requires 2 * Distance(other + Remainder(other, divisor), read) <= d
    ensures data == other
  {
    hide Distance, Generator, Remainder;
    var u, v := data + Remainder(data, divisor), other + Remainder(other, divisor);
    if data != other {
      BlocksAreFarApart(data, other, d, divisor);
      Triangle(u, read, v);
      DistanceSwaps(read, v);
    }
  }
}
