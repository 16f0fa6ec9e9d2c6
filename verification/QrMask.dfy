/** Masking a QR code's modules and choosing the mask: of eight, tried one after the other in place.
  * Section 7.8 of ISO/IEC 18004:2015. */
module QrMask {
  import opened QrPlacement

  type Grid = seq<seq<bool>>

  const LONG_MAX: int := 0x7FFF_FFFF_FFFF_FFFF

  predicate IsMask(msk: int) { 0 <= msk <= 7 }

  /** Which modules a mask inverts. */
  predicate Inverts(msk: int, x: nat, y: nat)
    requires IsMask(msk)
  {
    match msk
    case 0 => (x + y) % 2 == 0
    case 1 => y % 2 == 0
    case 2 => x % 3 == 0
    case 3 => (x + y) % 3 == 0
    case 4 => (x / 3 + y / 2) % 2 == 0
    case 5 => x * y % 2 + x * y % 3 == 0
    case 6 => (x * y % 2 + x * y % 3) % 2 == 0
    case 7 => ((x + y) % 2 + x * y % 3) % 2 == 0
  }

  lemma SixParts(q: nat, r: nat)
    requires r < 6
    ensures (6 * q + r) % 2 == r % 2 && (6 * q + r) % 3 == r % 3 && (6 * q + r) % 6 == r
  {
    assert 6 * q + r == 2 * (3 * q + r / 2) + r % 2;
    assert 6 * q + r == 3 * (2 * q + r / 3) + r % 3;
  }

  lemma SixthOf(p: nat)
    ensures p % 2 + p % 3 == 0 <==> p % 6 == 0
    ensures (p % 2 + p % 3) % 2 == 0 <==> p % 6 < 3
  {
    var q, r := p / 6, p % 6;
    assert p == 6 * q + r;
    SixParts(q, r);
    assert r == 0 || r == 1 || r == 2 || r == 3 || r == 4 || r == 5;
  }

  /** What the product of column and row decides. */
  predicate ByProduct(msk: int, p: nat, even: bool)
  {
    if msk == 5 then p % 6 == 0 else if msk == 6 then p % 6 < 3 else even != (p % 3 == 1)
  }

  lemma ByProductIs(s: nat, p: nat)
    ensures ByProduct(5, p, s % 2 == 0) <==> p % 2 + p % 3 == 0
    ensures ByProduct(6, p, s % 2 == 0) <==> (p % 2 + p % 3) % 2 == 0
    ensures ByProduct(7, p, s % 2 == 0) <==> (s % 2 + p % 3) % 2 == 0
  {
    SixthOf(p);
  }

  /** Three patterns depend on the product of column and row: where it is a multiple of six, where it leaves less than three
    * divided by six, and a chessboard turned over where it leaves one divided by three. */
  lemma ProductPatterns(x: nat, y: nat)
    ensures forall msk | 5 <= msk <= 7 :: Inverts(msk, x, y) <==> ByProduct(msk, x * y, (x + y) % 2 == 0)
  {
    ByProductIs(x + y, x * y);
  }

  /** The others told by how they go on from module to module. A chessboard: */
  lemma ChessboardPattern(x: nat, y: nat)
    ensures Inverts(0, 0, 0) && Inverts(0, x + 1, y) == !Inverts(0, x, y) && Inverts(0, x, y + 1) == !Inverts(0, x, y)
  {
  }

  /** Every other row. */
  lemma RowPattern(x: nat, y: nat)
    ensures Inverts(1, x, 0) && Inverts(1, x, y + 1) == !Inverts(1, x, y)
  {
  }

  lemma ThirdIs(n: nat)
    ensures (n + 3) % 3 == n % 3
  {
  }

  /** Every third column and every third diagonal. */
  lemma ThirdPatterns(x: nat, y: nat)
    ensures Inverts(2, 0, y) && !Inverts(2, 1, y) && !Inverts(2, 2, y) && Inverts(2, x + 3, y) == Inverts(2, x, y)
    ensures Inverts(3, x, 0) == Inverts(2, x, 0) && Inverts(3, x, y + 1) == Inverts(3, x + 1, y)
  {
    ThirdIs(x);
  }

  lemma BlockIs(x: nat, y: nat)
    ensures (3 * x + 1) / 3 == (3 * x + 2) / 3 == (3 * x) / 3 == x && (2 * y + 1) / 2 == (2 * y) / 2 == y
    ensures (x + 3) / 3 == x / 3 + 1 && (y + 2) / 2 == y / 2 + 1
  {
  }

  /** A chessboard of blocks, three wide and two high. */
  lemma BlockPattern(x: nat, y: nat)
    ensures Inverts(4, 0, 0) && Inverts(4, 3 * x + 1, y) == Inverts(4, 3 * x + 2, y) == Inverts(4, 3 * x, y)
    ensures Inverts(4, x, 2 * y + 1) == Inverts(4, x, 2 * y)
    ensures Inverts(4, x + 3, y) == !Inverts(4, x, y) && Inverts(4, x, y + 2) == !Inverts(4, x, y)
  {
    hide Inverts;
    BlockIs(x, y);
    BlockOf(0, 0);
    BlockOf(3 * x, y);
    BlockOf(3 * x + 1, y);
    BlockOf(3 * x + 2, y);
    BlockOf(x, 2 * y);
    BlockOf(x, 2 * y + 1);
    BlockOf(x, y);
    BlockOf(x + 3, y);
    BlockOf(x, y + 2);
    OtherParity(x / 3 + y / 2);
  }

  lemma BlockOf(x: nat, y: nat)
    ensures Inverts(4, x, y) <==> (x / 3 + y / 2) % 2 == 0
  {
  }

  lemma OtherParity(n: nat)
    ensures (n + 1) % 2 == 0 <==> n % 2 != 0
  {
  }

  function MaskedAt(image: Grid, isFunction: Grid, msk: int, x: nat, y: nat): bool
    requires IsMask(msk) && Square(image, |image|) && Square(isFunction, |image|) && x < |image| && y < |image|
  {
    if isFunction[y][x] || !Inverts(msk, x, y) then image[y][x] else !image[y][x]
  }

  /** The mask inverts modules of the data, never those of the function patterns. */
  function Masked(image: Grid, isFunction: Grid, msk: int): (masked: Grid)
    requires IsMask(msk) && Square(image, |image|) && Square(isFunction, |image|)
    ensures |masked| == |image| && Square(masked, |image|)
  {
    seq(|image|, y requires 0 <= y < |image| =>
      seq(|image|, x requires 0 <= x < |image| => MaskedAt(image, isFunction, msk, x, y)))
  }

  /** Modules drawn over the others. */
  type Format = map<Spot, bool>

  function Overlaid(image: Grid, format: Format): (over: Grid)
    requires Square(image, |image|)
    ensures |over| == |image| && Square(over, |image|)
  {
    seq(|image|, y requires 0 <= y < |image| =>
      seq(|image|, x requires 0 <= x < |image| => if Spot(x, y) in format then format[Spot(x, y)] else image[y][x]))
  }

  /** Format bits go to function modules. */
  ghost predicate OnFunctions(format: Format, isFunction: Grid)
  {
    forall p :: p in format ==> 0 <= p.y < |isFunction| && 0 <= p.x < |isFunction[p.y]| && isFunction[p.y][p.x]
  }

  /** The finished code: masked, with the format bits that name the mask. */
  function Finished(image: Grid, isFunction: Grid, msk: int, format: int -> Format): (finished: Grid)
    requires IsMask(msk) && Square(image, |image|) && Square(isFunction, |image|)
    ensures |finished| == |image| && Square(finished, |image|)
  {
    Overlaid(Masked(image, isFunction, msk), format(msk))
  }

  // --- What masks leave behind ---

  lemma SameGrid(a: Grid, b: Grid)
    requires |a| == |b| && Square(a, |a|) && Square(b, |a|)
    requires forall y, x | 0 <= y < |a| && 0 <= x < |a| :: a[y][x] == b[y][x]
    ensures a == b
  {
    forall y | 0 <= y < |a|
      ensures a[y] == b[y]
    {
      assert |a[y]| == |b[y]| == |a|;
    }
  }

  /** Applying a mask twice undoes it. */
  lemma MaskTwice(image: Grid, isFunction: Grid, msk: int)
    requires IsMask(msk) && Square(image, |image|) && Square(isFunction, |image|)
    ensures Masked(Masked(image, isFunction, msk), isFunction, msk) == image
  {
    hide Inverts;
    SameGrid(Masked(Masked(image, isFunction, msk), isFunction, msk), image);
  }

  /** Format bits are where no mask inverts. */
  lemma MaskUnder(image: Grid, isFunction: Grid, msk: int, format: Format)
    requires IsMask(msk) && Square(image, |image|) && Square(isFunction, |image|) && OnFunctions(format, isFunction)
    ensures Masked(Overlaid(image, format), isFunction, msk) == Overlaid(Masked(image, isFunction, msk), format)
  {
    hide Inverts;
    var a, b := Masked(Overlaid(image, format), isFunction, msk), Overlaid(Masked(image, isFunction, msk), format);
    forall y, x | 0 <= y < |a| && 0 <= x < |a|
      ensures a[y][x] == b[y][x]
    {
      assert Spot(x, y) in format ==> isFunction[y][x];
    }
    SameGrid(a, b);
  }

  lemma OverlayAgain(image: Grid, first: Format, second: Format)
    requires Square(image, |image|) && first.Keys == second.Keys
    ensures Overlaid(Overlaid(image, first), second) == Overlaid(image, second)
  {
    SameGrid(Overlaid(Overlaid(image, first), second), Overlaid(image, second));
  }

  /** Whatever mask the code was finished with, undoing it gives every module of the data back. */
  lemma UnmaskedIsDrawn(image: Grid, isFunction: Grid, msk: int, format: int -> Format, p: Spot)
    requires IsMask(msk) && Square(image, |image|) && Square(isFunction, |image|) && OnFunctions(format(msk), isFunction)
    requires Inside(p, |image|) && IsFree(isFunction, p)
    ensures Module(Masked(Finished(image, isFunction, msk, format), isFunction, msk), p) == Module(image, p)
  {
    hide Inverts, Masked, Overlaid;
    MaskUnder(Masked(image, isFunction, msk), isFunction, msk, format(msk));
    MaskTwice(image, isFunction, msk);
    assert p !in format(msk);
    OverlaidAt(image, format(msk), p);
  }

  lemma OverlaidAt(image: Grid, format: Format, p: Spot)
    requires Square(image, |image|) && Inside(p, |image|) && p !in format
    ensures Module(Overlaid(image, format), p) == Module(image, p)
  {
  }

  // --- In place ---

  method ApplyMask(modules: array2<bool>, isFunction: Grid, msk: int) returns (ok: bool)
    requires modules.Length0 == modules.Length1 && Square(isFunction, modules.Length0)
    modifies modules
    ensures ok <==> IsMask(msk)
    ensures Image(modules) == if ok then Masked(old(Image(modules)), isFunction, msk) else old(Image(modules))
  {
    if msk < 0 || msk > 7 {
      return false;
    }
    ghost var before := Image(modules);
    hide Inverts, MaskedAt;
    for y := 0 to modules.Length0
      invariant forall v, u | 0 <= v < modules.Length0 && 0 <= u < modules.Length1 ::
        modules[v, u] == if v < y then MaskedAt(before, isFunction, msk, u, v) else before[v][u]
    {
      for x := 0 to modules.Length1
        invariant forall v, u | 0 <= v < modules.Length0 && 0 <= u < modules.Length1 ::
          modules[v, u] == if v < y || (v == y && u < x) then MaskedAt(before, isFunction, msk, u, v) else before[v][u]
      {
        var invert := Invert(msk, x, y);
        MaskedAtIs(before, isFunction, msk, x, y);
        modules[y, x] := modules[y, x] != (invert && !isFunction[y][x]);
      }
    }
    SameGrid(Image(modules), Masked(before, isFunction, msk));
    ok := true;
  }

  lemma MaskedAtIs(image: Grid, isFunction: Grid, msk: int, x: nat, y: nat)
    requires IsMask(msk) && Square(image, |image|) && Square(isFunction, |image|) && x < |image| && y < |image|
    ensures MaskedAt(image, isFunction, msk, x, y) == (image[y][x] != (Inverts(msk, x, y) && !isFunction[y][x]))
  {
    hide Inverts;
  }

  method Invert(msk: int, x: nat, y: nat) returns (invert: bool)
    requires IsMask(msk)
    ensures invert == Inverts(msk, x, y)
  {
    match msk {
      case 0 => invert := (x + y) % 2 == 0;
      case 1 => invert := y % 2 == 0;
      case 2 => invert := x % 3 == 0;
      case 3 => invert := (x + y) % 3 == 0;
      case 4 => invert := (x / 3 + y / 2) % 2 == 0;
      case 5 => invert := x * y % 2 + x * y % 3 == 0;
      case 6 => invert := (x * y % 2 + x * y % 3) % 2 == 0;
      case 7 => invert := ((x + y) % 2 + x * y % 3) % 2 == 0;
    }
  }

  method DrawFormat(modules: array2<bool>, format: Format)
    requires modules.Length0 == modules.Length1
    requires forall p :: p in format ==> Inside(p, modules.Length0)
    modifies modules
    ensures Image(modules) == Overlaid(old(Image(modules)), format)
  {
    ghost var before := Image(modules);
    var todo := format.Keys;
    while todo != {}
      invariant todo <= format.Keys
      invariant forall y, x | 0 <= y < modules.Length0 && 0 <= x < modules.Length1 ::
        modules[y, x] == if Spot(x, y) in format && Spot(x, y) !in todo then format[Spot(x, y)] else before[y][x]
      decreases todo
    {
      var p :| p in todo;
      modules[p.y, p.x] := format[p];
      todo := todo - {p};
    }
    SameGrid(Image(modules), Overlaid(before, format));
  }

  /** No code finished with another mask has less of a penalty, and none with a lower mask as little. */
  ghost predicate IsBest(mask: int, tried: int, image: Grid, isFunction: Grid, format: int -> Format, penalty: Grid -> int)
    requires Square(image, |image|) && Square(isFunction, |image|) && tried <= 8
  {
    && 0 <= mask < tried
    && forall i | 0 <= i < tried ::
         var p, q := penalty(Finished(image, isFunction, mask, format)), penalty(Finished(image, isFunction, i, format));
         p <= q && (i < mask ==> p < q)
  }

  /** So there is but one such mask. */
  lemma BestIsUnique(a: int, b: int, image: Grid, isFunction: Grid, format: int -> Format, penalty: Grid -> int)
    requires Square(image, |image|) && Square(isFunction, |image|)
    requires IsBest(a, 8, image, isFunction, format, penalty) && IsBest(b, 8, image, isFunction, format, penalty)
    ensures a == b
  {
    hide Finished;
    var p, q := penalty(Finished(image, isFunction, a, format)), penalty(Finished(image, isFunction, b, format));
    assert p <= q && q <= p && (a < b ==> q < p) && (b < a ==> p < q);
  }

  ghost predicate FormatsFit(format: int -> Format, isFunction: Grid) {
    forall i | 0 <= i <= 7 :: format(i).Keys == format(0).Keys && OnFunctions(format(i), isFunction)
  }

  /** Nothing but format bits of a mask tried. */
  ghost predicate IsTrace(last: Grid, before: Grid, format: int -> Format)
    requires Square(before, |before|)
  {
    last == before || exists k :: 0 <= k <= 7 && last == Overlaid(before, format(k))
  }

  /** A turn of the loop that tries the masks. */
  method TryMask(modules: array2<bool>, isFunction: Grid, i: int, format: int -> Format, penalty: Grid -> int,
                 ghost before: Grid)
    returns (penaltyOfThis: int)
    requires modules.Length0 == modules.Length1 && Square(isFunction, modules.Length0) && IsMask(i)
    requires FormatsFit(format, isFunction)
    requires |before| == modules.Length0 && Square(before, |before|) && IsTrace(Image(modules), before, format)
    modifies modules
    ensures penaltyOfThis == penalty(Finished(before, isFunction, i, format))
    ensures IsTrace(Image(modules), before, format)
  {
    hide Masked, Overlaid, OnFunctions, Image, Inverts;
    ghost var last := Image(modules);
    Trial(before, last, isFunction, i, format);
    var ok := ApplyMask(modules, isFunction, i);
    DrawFormat(modules, format(i));
    penaltyOfThis := penalty(Image(modules));
    // Undoes the mask
    ok := ApplyMask(modules, isFunction, i);
  }

  /** The masking of the constructor. The format bits of every mask go to the same function modules. Trying the masks
    * leaves no trace: the code is the one finished with the mask chosen, the first of the best if none was asked for. */
  method DoMasking(modules: array2<bool>, isFunction: Grid, msk: int, format: int -> Format, penalty: Grid -> int)
    returns (mask: int)
    requires modules.Length0 == modules.Length1 && Square(isFunction, modules.Length0) && -1 <= msk <= 7
    requires FormatsFit(format, isFunction)
    requires forall image: Grid :: |image| == modules.Length0 && Square(image, |image|) ==> penalty(image) < LONG_MAX
    modifies modules
    ensures IsMask(mask) && (msk != -1 ==> mask == msk)
    ensures Image(modules) == Finished(old(Image(modules)), isFunction, mask, format)
    ensures msk == -1 ==> IsBest(mask, 8, old(Image(modules)), isFunction, format, penalty)
  {
    hide Masked, Overlaid, OnFunctions, Image, Inverts, FormatsFit;
    ghost var before := Image(modules);
    mask := msk;
    if msk == -1 {
      var minPenalty := LONG_MAX;
      for i := 0 to 8
        invariant IsTrace(Image(modules), before, format)
        invariant i == 0 ==> minPenalty == LONG_MAX
        invariant i > 0 ==> IsBest(mask, i, before, isFunction, format, penalty)
                            && minPenalty == penalty(Finished(before, isFunction, mask, format))
      {
        var penaltyOfThis := TryMask(modules, isFunction, i, format, penalty, before);
        if penaltyOfThis < minPenalty {
          mask := i;
          minPenalty := penaltyOfThis;
        }
      }
    }
    hide IsBest;
    Trial(before, Image(modules), isFunction, mask, format);
    var ok := ApplyMask(modules, isFunction, mask);
    DrawFormat(modules, format(mask));
  }

  /** A mask tried after others: its code is finished as if it were the first, and undoing it leaves only its format bits. */
  lemma Trial(before: Grid, last: Grid, isFunction: Grid, i: int, format: int -> Format)
    requires IsMask(i) && Square(before, |before|) && Square(isFunction, |before|)
    requires FormatsFit(format, isFunction) && IsTrace(last, before, format)
    ensures |last| == |before| && Square(last, |before|)
    ensures forall p :: p in format(i) ==> Inside(p, |before|)
    ensures Finished(last, isFunction, i, format) == Finished(before, isFunction, i, format)
    ensures Masked(Finished(before, isFunction, i, format), isFunction, i) == Overlaid(before, format(i))
    ensures IsTrace(Overlaid(before, format(i)), before, format)
  {
    hide Masked, Overlaid;
    if last != before {
      var k :| 0 <= k <= 7 && last == Overlaid(before, format(k));
      MaskUnder(before, isFunction, i, format(k));
      OverlayAgain(Masked(before, isFunction, i), format(k), format(i));
    }
    MaskUnder(Masked(before, isFunction, i), isFunction, i, format(i));
    MaskTwice(before, isFunction, i);
  }
}
