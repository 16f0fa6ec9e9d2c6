/** Drawing the codewords into a QR code's modules, in a zigzag over pairs of columns.
  * Section 7.7.3 of ISO/IEC 18004:2015. */
module QrPlacement {
  import opened QrBits

  datatype Spot = Spot(x: int, y: int)

  /** A step of the scan: the pair of columns counted from the right, the vertical counter and the column. */
  datatype Step = Step(pair: int, vert: int, j: int)

  /** A code of version v is 4 v + 17 modules wide. */
  predicate Size(size: int) { size >= 21 && size % 4 == 1 }

  predicate Inside(s: Spot, size: int) { 0 <= s.x < size && 0 <= s.y < size }

  predicate IsStep(s: Step, size: int) { 0 <= s.pair < size / 2 && 0 <= s.vert < size && 0 <= s.j < 2 }

  predicate Earlier(s: Step, t: Step)
  {
    s.pair < t.pair || (s.pair == t.pair && (s.vert < t.vert || (s.vert == t.vert && s.j < t.j)))
  }

  /** The right column of a pair. Column 6 holds a timing pattern and is stepped over. */
  function Right(size: int, pair: int): int
  {
    var right := size - 1 - 2 * pair;
    if right <= 6 then right - 1 else right
  }

  predicate Upward(right: int) { (right + 1) / 2 % 2 == 0 }

  function Visited(size: int, s: Step): Spot
  {
    var right := Right(size, s.pair);
    Spot(right - s.j, if Upward(right) then size - 1 - s.vert else s.vert)
  }

  /** The step that comes to a module. */
  function Visit(size: int, s: Spot): Step
  {
    var right := RightOf(s.x);
    Step(PairOf(size, right), if Upward(right) then size - 1 - s.y else s.y, right - s.x)
  }

  lemma VisitedOnce(size: int, s: Step)
    requires Size(size) && IsStep(s, size)
    ensures Inside(Visited(size, s), size) && Visited(size, s).x != 6 && Visit(size, Visited(size, s)) == s
  {
    RightOnce(size, s);
    hide Upward, Right;
  }

  function RightOf(x: int): int { if x > 6 then x + x % 2 else x + 1 - x % 2 }

  function PairOf(size: int, right: int): int
  {
    if right > 6 then (size - 1 - right) / 2 else (size - 2 - right) / 2
  }

  lemma RightOnce(size: int, s: Step)
    requires Size(size) && IsStep(s, size)
    ensures 1 <= Right(size, s.pair) < size && Right(size, s.pair) - s.j >= 0 && Right(size, s.pair) - s.j != 6
    ensures RightOf(Right(size, s.pair) - s.j) == Right(size, s.pair)
    ensures PairOf(size, Right(size, s.pair)) == s.pair
  {
    assert size % 2 == 1;
  }

  lemma AllVisited(size: int, s: Spot)
    requires Size(size) && Inside(s, size) && s.x != 6
    ensures IsStep(Visit(size, s), size) && Visited(size, Visit(size, s)) == s
  {
    var half := HalfSize(size);
    PairIsOf(size, half, s.x);
    hide Upward, Right, RightOf, PairOf, Size;
  }

  lemma HalfSize(size: int) returns (half: int)
    requires Size(size)
    ensures size == 2 * half + 1 && half == size / 2 && half >= 10
  {
    half := size / 2;
  }

  /** The pair of columns a column belongs to. */
  lemma PairIsOf(size: int, half: int, x: int)
    requires size == 2 * half + 1 && half >= 10 && 0 <= x < size && x != 6
    ensures 0 <= PairOf(size, RightOf(x)) < half && 0 <= RightOf(x) - x < 2
    ensures Right(size, PairOf(size, RightOf(x))) == RightOf(x)
  {
    hide RightOf, PairOf, Right;
    if x > 6 {
      var c := RightIsEven(x);
      PairRight(size, half, c);
    } else {
      var c := RightIsOdd(x);
      PairLeft(size, half, c);
    }
  }

  lemma RightIsEven(x: int) returns (c: int)
    requires x > 6
    ensures RightOf(x) == 2 * c && (x == 2 * c || x == 2 * c - 1)
  {
    c := (x + 1) / 2;
  }

  lemma RightIsOdd(x: int) returns (c: int)
    requires 0 <= x < 6
    ensures RightOf(x) == 2 * c + 1 && (x == 2 * c || x == 2 * c + 1)
  {
    c := x / 2;
  }

  lemma PairRight(size: int, half: int, c: int)
    requires size == 2 * half + 1 && 3 < c <= half
    ensures PairOf(size, 2 * c) == half - c && Right(size, half - c) == 2 * c
  {
  }

  lemma PairLeft(size: int, half: int, c: int)
    requires size == 2 * half + 1 && half >= 10 && 0 <= c < 3
    ensures PairOf(size, 2 * c + 1) == half - c - 1 && Right(size, half - c - 1) == 2 * c + 1
  {
  }

  // --- The path of the scan ---

  predicate Reached(s: Step, size: int)
  {
    && 0 <= s.pair <= size / 2 && 0 <= s.vert <= size && 0 <= s.j <= 2
    && (s.pair == size / 2 ==> s.vert == 0)
    && (s.vert == size || s.pair == size / 2 ==> s.j == 0)
  }

  /** The modules visited before a step. */
  function Path(size: int, s: Step): seq<Spot>
    requires Size(size) && Reached(s, size)
    decreases s.pair, s.vert, s.j
  {
    if s.j > 0 then Path(size, s.(j := s.j - 1)) + [Visited(size, s.(j := s.j - 1))]
    else if s.vert > 0 then Path(size, s.(vert := s.vert - 1, j := 2))
    else if s.pair > 0 then Path(size, Step(s.pair - 1, size, 0))
    else []
  }

  function Scan(size: int): seq<Spot>
    requires Size(size)
  {
    Path(size, Step(size / 2, 0, 0))
  }

  predicate Distinct(path: seq<Spot>) { forall i, k | 0 <= i < k < |path| :: path[i] != path[k] }

  ghost predicate Scanned(size: int, s: Step, path: seq<Spot>)
  {
    && Distinct(path)
    && forall p :: p in path <==> Inside(p, size) && p.x != 6 && Earlier(Visit(size, p), s)
  }

  lemma OneMore(size: int, s: Step, path: seq<Spot>)
    requires Size(size) && Reached(s, size) && s.j < 2 && IsStep(s, size)
    requires Scanned(size, s, path)
    ensures Scanned(size, s.(j := s.j + 1), path + [Visited(size, s)])
    ensures Visited(size, s) !in path
  {
    hide Visit, Visited;
    var spot := Visited(size, s);
    VisitedOnce(size, s);
    forall p
      ensures p in path + [spot] <==> Inside(p, size) && p.x != 6 && Earlier(Visit(size, p), s.(j := s.j + 1))
    {
      if Inside(p, size) && p.x != 6 {
        AllVisited(size, p);
        if !Earlier(Visit(size, p), s) && Earlier(Visit(size, p), s.(j := s.j + 1)) {
          assert Visit(size, p) == s;
        }
      }
    }
  }

  lemma NextRow(size: int, s: Step, t: Step, path: seq<Spot>)
    requires Size(size) && Scanned(size, s, path)
    requires (s.j == 2 && t == Step(s.pair, s.vert + 1, 0)) || (s.vert == size && s.j == 0 && t == Step(s.pair + 1, 0, 0))
    ensures Scanned(size, t, path)
  {
    hide Visit;
    forall p
      ensures p in path <==> Inside(p, size) && p.x != 6 && Earlier(Visit(size, p), t)
    {
      if Inside(p, size) && p.x != 6 {
        AllVisited(size, p);
      }
    }
  }

  /** Before a step the scan has been at the modules of all earlier steps, at each once. */
  lemma {:induction false} PathScans(size: int, s: Step)
    requires Size(size) && Reached(s, size)
    ensures Scanned(size, s, Path(size, s))
    decreases s.pair, s.vert, s.j
  {
    hide Scanned;
    if s.j > 0 {
      PathScans(size, s.(j := s.j - 1));
      OneMore(size, s.(j := s.j - 1), Path(size, s.(j := s.j - 1)));
    } else if s.vert > 0 {
      PathScans(size, s.(vert := s.vert - 1, j := 2));
      NextRow(size, s.(vert := s.vert - 1, j := 2), s, Path(size, s));
    } else if s.pair > 0 {
      PathScans(size, Step(s.pair - 1, size, 0));
      NextRow(size, Step(s.pair - 1, size, 0), s, Path(size, s));
    } else {
      NothingScanned(size, s);
    }
  }

  lemma NothingScanned(size: int, s: Step)
    requires Size(size) && s == Step(0, 0, 0)
    ensures Scanned(size, s, [])
  {
    hide Visit;
    forall p: Spot | Inside(p, size) && p.x != 6
      ensures !Earlier(Visit(size, p), s)
    {
      AllVisited(size, p);
    }
  }

  /** The whole scan is at every module outside column 6 exactly once. */
  lemma ScanVisitsEachOnce(size: int)
    requires Size(size)
    ensures Distinct(Scan(size))
    ensures forall p :: p in Scan(size) <==> Inside(p, size) && p.x != 6
  {
    hide Visit, Path;
    PathScans(size, Step(size / 2, 0, 0));
    forall p: Spot | Inside(p, size) && p.x != 6
      ensures Earlier(Visit(size, p), Step(size / 2, 0, 0))
    {
      AllVisited(size, p);
    }
  }

  // --- Its order ---

  /** The number of modules before a step. */
  function Before(size: int, s: Step): int { 2 * (size * s.pair + s.vert) + s.j }

  lemma NextPair(size: int, pair: int)
    ensures 2 * (size * (pair - 1) + size) == 2 * (size * pair)
  {
    assert size * (pair - 1) == size * pair - size;
  }

  lemma {:induction false} PathLength(size: int, s: Step)
    requires Size(size) && Reached(s, size)
    ensures |Path(size, s)| == Before(size, s)
    decreases s.pair, s.vert, s.j
  {
    hide Visited;
    if s.j > 0 {
      PathLength(size, s.(j := s.j - 1));
    } else if s.vert > 0 {
      PathLength(size, s.(vert := s.vert - 1, j := 2));
    } else if s.pair > 0 {
      PathLength(size, Step(s.pair - 1, size, 0));
      NextPair(size, s.pair);
    }
  }

  lemma BeforeIsNat(size: int, s: Step)
    requires Size(size) && IsStep(s, size)
    ensures Before(size, s) >= 0
  {
    assert 0 <= size * s.pair;
  }

  lemma {:induction false} PathAt(size: int, s: Step, t: Step)
    requires Size(size) && Reached(s, size) && IsStep(t, size) && Earlier(t, s)
    ensures 0 <= Before(size, t) < |Path(size, s)| && Path(size, s)[Before(size, t)] == Visited(size, t)
    decreases s.pair, s.vert, s.j
  {
    hide Visited, Before;
    BeforeIsNat(size, t);
    if s.j > 0 {
      var r := s.(j := s.j - 1);
      PathLength(size, r);
      if t != r {
        PathAt(size, r, t);
      }
    } else if s.vert > 0 {
      PathAt(size, s.(vert := s.vert - 1, j := 2), t);
    } else {
      PathAt(size, Step(s.pair - 1, size, 0), t);
    }
  }

  /** A pair of columns counted from the right goes up if it is an even one. */
  lemma EvenPairsGoUp(size: int, pair: int)
    requires Size(size) && 0 <= pair < size / 2
    ensures Upward(Right(size, pair)) <==> pair % 2 == 0
  {
    var quarter := (size - 1) / 4;
    assert size == 4 * quarter + 1;
    var half, odd := pair / 2, pair % 2;
    assert pair == 2 * half + odd;
    SenseOf(quarter, half, odd);
  }

  lemma SenseOf(quarter: int, half: int, odd: int)
    requires quarter >= 5 && half >= 0 && 0 <= odd < 2 && 2 * half + odd < 2 * quarter
    ensures Upward(Right(4 * quarter + 1, 2 * half + odd)) <==> odd == 0
  {
    var right := 4 * quarter - 4 * half - 2 * odd;
    if right > 6 {
      assert (right + 1) / 2 == 2 * (quarter - half) - odd;
    } else {
      assert right / 2 == 2 * (quarter - half) - odd;
    }
  }

  /** Where the right module of the v-th row of a pair of columns is. */
  function RowOf(size: int, pair: int, v: int): Spot
  {
    Spot(if size - 1 - 2 * pair > 6 then size - 1 - 2 * pair else size - 2 - 2 * pair,
         if pair % 2 == 0 then size - 1 - v else v)
  }

  /** The scan goes over the pairs of columns from the right to the left, the first one upward and then down and up by
    * turns, in each row first to the right module and then to the left one. */
  lemma ScanOrder(size: int, pair: int, v: int)
    requires Size(size) && 0 <= pair < size / 2 && 0 <= v < size
    ensures var i, p := 2 * (size * pair + v), RowOf(size, pair, v);
      && 0 <= i < i + 1 < |Scan(size)|
      && Scan(size)[i] == p && Scan(size)[i + 1] == Spot(p.x - 1, p.y)
  {
    hide Path, Upward;
    EvenPairsGoUp(size, pair);
    PathAt(size, Step(size / 2, 0, 0), Step(pair, v, 0));
    PathAt(size, Step(size / 2, 0, 0), Step(pair, v, 1));
  }

  /** It is at every module outside one column, and starts in the lower right corner. */
  lemma ScanStarts(size: int)
    requires Size(size)
    ensures |Scan(size)| == size * (size - 1) && Scan(size)[0] == Spot(size - 1, size - 1)
  {
    hide Path;
    PathLength(size, Step(size / 2, 0, 0));
    ScanOrder(size, 0, 0);
    assert 2 * (size / 2) == size - 1;
    assert 2 * (size * (size / 2)) == size * (2 * (size / 2));
  }

  /** From one row to the next it moves by one within a pair of columns, and by none from a pair of columns to the next on
    * the left, where it steps over column 6. */
  lemma ScanZigzags(size: int, pair: int, v: int)
    requires Size(size) && 0 <= pair < size / 2 && 0 <= v < size
    ensures var i, path := 2 * (size * pair + v), Scan(size);
      && 0 <= i < i + 1 < |path|
      && path[i + 1].y == path[i].y && path[i + 1].x == path[i].x - 1
      && (v + 1 < size ==>
            && i + 2 < |path|
            && path[i + 2].x == path[i].x && path[i + 2].y == path[i].y + (if pair % 2 == 0 then -1 else 1))
      && (v + 1 == size && pair + 1 < size / 2 ==>
            && i + 2 < |path|
            && path[i + 2].y == path[i].y && path[i + 2].x == (if path[i].x == 8 then 5 else path[i].x - 2))
  {
    hide Scan, RowOf;
    ScanOrder(size, pair, v);
    if v + 1 < size {
      ScanOrder(size, pair, v + 1);
      NextRowOf(size, pair, v);
    } else if pair + 1 < size / 2 {
      ScanOrder(size, pair + 1, 0);
      NextPair(size, pair + 1);
      NextPairOf(size, pair);
    }
  }

  lemma NextRowOf(size: int, pair: int, v: int)
    ensures RowOf(size, pair, v + 1).x == RowOf(size, pair, v).x
    ensures RowOf(size, pair, v + 1).y == RowOf(size, pair, v).y + (if pair % 2 == 0 then -1 else 1)
  {
  }

  lemma NextPairOf(size: int, pair: int)
    requires Size(size) && 0 <= pair && pair + 1 < size / 2
    ensures RowOf(size, pair + 1, 0).y == RowOf(size, pair, size - 1).y
    ensures RowOf(size, pair + 1, 0).x
         == if RowOf(size, pair, size - 1).x == 8 then 5 else RowOf(size, pair, size - 1).x - 2
  {
    var half := HalfSize(size);
  }

  // --- Free modules ---

  predicate Square(isFunction: seq<seq<bool>>, size: int)
  {
    |isFunction| == size && forall y | 0 <= y < size :: |isFunction[y]| == size
  }

  predicate IsFree(isFunction: seq<seq<bool>>, s: Spot)
  {
    0 <= s.y < |isFunction| && 0 <= s.x < |isFunction[s.y]| && !isFunction[s.y][s.x]
  }

  /** The modules of a path that no function pattern takes. */
  function Free(isFunction: seq<seq<bool>>, path: seq<Spot>): (f: seq<Spot>)
    ensures forall p :: p in f <==> p in path && IsFree(isFunction, p)
  {
    if path == [] then [] else
    var n := |path| - 1;
    Free(isFunction, path[..n]) + if IsFree(isFunction, path[n]) then [path[n]] else []
  }

  lemma {:induction false} FreeDistinct(isFunction: seq<seq<bool>>, path: seq<Spot>)
    requires Distinct(path)
    ensures Distinct(Free(isFunction, path))
  {
    if path != [] {
      var n := |path| - 1;
      FreeDistinct(isFunction, path[..n]);
      assert path[n] !in path[..n];
    }
  }

  /** The places for the bits, in the order they are filled. */
  function Places(isFunction: seq<seq<bool>>, size: int): seq<Spot>
    requires Size(size)
  {
    Free(isFunction, Scan(size))
  }

  /** Every free module outside column 6 is a place, once. */
  lemma PlacesAreFreeModules(isFunction: seq<seq<bool>>, size: int)
    requires Size(size) && Square(isFunction, size)
    ensures Distinct(Places(isFunction, size))
    ensures forall p :: p in Places(isFunction, size) <==> p.x != 6 && IsFree(isFunction, p)
  {
    hide Distinct, Scan;
    ScanVisitsEachOnce(size);
    FreeDistinct(isFunction, Scan(size));
  }

  // --- Drawing ---

  function Fewer(a: int, b: int): int { if a < b then a else b }

  /** The modules of a path hold the bits as far as there are bits, all the other modules what they did before. */
  ghost predicate Drawn(image: seq<seq<bool>>, before: seq<seq<bool>>, bits: seq<bool>, places: seq<Spot>)
  {
    && Square(image, |image|) && Square(before, |image|)
    && (forall p :: p in places ==> Inside(p, |image|))
    && (forall k | 0 <= k < Fewer(|places|, |bits|) :: Module(image, places[k]) == bits[k])
    && (forall p | Inside(p, |image|) ::
          p !in places[..Fewer(|places|, |bits|)] ==> Module(image, p) == Module(before, p))
  }

  function Module(image: seq<seq<bool>>, p: Spot): bool
    requires Square(image, |image|) && Inside(p, |image|)
  {
    image[p.y][p.x]
  }

  function Image(modules: array2<bool>): (image: seq<seq<bool>>)
    reads modules
    ensures |image| == modules.Length0
    ensures forall y | 0 <= y < |image| :: |image[y]| == modules.Length1
    ensures forall y, x | 0 <= y < modules.Length0 && 0 <= x < modules.Length1 :: image[y][x] == modules[y, x]
  {
    seq(modules.Length0, y requires 0 <= y < modules.Length0 reads modules =>
      seq(modules.Length1, x requires 0 <= x < modules.Length1 reads modules => modules[y, x]))
  }

  /** One more module drawn. */
  lemma DrawnMore(image: seq<seq<bool>>, after: seq<seq<bool>>, before: seq<seq<bool>>, bits: seq<bool>,
                  places: seq<Spot>, spot: Spot)
    requires Drawn(image, before, bits, places)
    requires Inside(spot, |image|) && spot !in places && |places| < |bits|
    requires Square(after, |image|) && |after| == |image| && Module(after, spot) == bits[|places|]
    requires forall p | Inside(p, |image|) && p != spot :: Module(after, p) == Module(image, p)
    ensures Drawn(after, before, bits, places + [spot])
  {
    hide Module;
    assert places[..|places|] == places;
    assert (places + [spot])[..|places| + 1] == places + [spot];
  }

  /** No bits left for a module. */
  lemma DrawnEnough(image: seq<seq<bool>>, before: seq<seq<bool>>, bits: seq<bool>, places: seq<Spot>, spot: Spot)
    requires Drawn(image, before, bits, places) && Inside(spot, |image|) && |places| >= |bits|
    ensures Drawn(image, before, bits, places + [spot])
  {
    hide Module;
    assert (places + [spot])[..|bits|] == places[..|bits|];
  }

  lemma FreeMore(isFunction: seq<seq<bool>>, path: seq<Spot>, spot: Spot)
    ensures Free(isFunction, path + [spot])
         == if IsFree(isFunction, spot) then Free(isFunction, path) + [spot] else Free(isFunction, path)
  {
    assert (path + [spot])[..|path|] == path;
  }

  method Put(modules: array2<bool>, isFunction: seq<seq<bool>>, data: seq<bv8>, spot: Spot, i: int,
             ghost before: seq<seq<bool>>, ghost path: seq<Spot>)
    returns (next: int)
    requires modules.Length0 == modules.Length1 && Square(isFunction, modules.Length0) && Inside(spot, modules.Length0)
    requires Drawn(Image(modules), before, Bits(data), Free(isFunction, path))
    requires i == Fewer(|Free(isFunction, path)|, |Bits(data)|) && spot !in path
    modifies modules
    ensures Drawn(Image(modules), before, Bits(data), Free(isFunction, path + [spot]))
    ensures next == Fewer(|Free(isFunction, path + [spot])|, |Bits(data)|)
  {
    hide BitOf, Bits, Drawn, Free;
    next := i;
    ghost var places, image := Free(isFunction, path), Image(modules);
    FreeMore(isFunction, path, spot);
    if !isFunction[spot.y][spot.x] {
      if i < |data| * 8 {
        BitAt(data, i);
        modules[spot.y, spot.x] := BitOf(data[i / 8], i % 8);
        next := i + 1;
        DrawnMore(image, Image(modules), before, Bits(data), places, spot);
      } else {
        DrawnEnough(image, before, Bits(data), places, spot);
      }
    }
  }

  /** drawCodewords. The codewords are refused unless there are exactly raw of them, as many as fit the version. */
  method DrawCodewords(modules: array2<bool>, isFunction: seq<seq<bool>>, data: seq<bv8>, raw: nat)
    returns (ok: bool, i: int)
    requires Size(modules.Length0) && modules.Length0 == modules.Length1 && Square(isFunction, modules.Length0)
    modifies modules
    ensures ok <==> |data| == raw
    ensures !ok ==> Image(modules) == old(Image(modules))
    ensures ok ==> Drawn(Image(modules), old(Image(modules)), Bits(data), Places(isFunction, modules.Length0))
    ensures ok ==> i == Fewer(|Places(isFunction, modules.Length0)|, 8 * |data|)
  {
    hide Free, Visited, Drawn, Path, Bits, Image, Scanned, Square, Visit;
    ok, i := |data| == raw, 0;
    if !ok {
      return;
    }
    var size := modules.Length0;
    ghost var before := Image(modules);
    NothingDrawn(modules, isFunction, Bits(data), size);
    var right := size - 1;
    ghost var pair := 0;
    while right >= 1
      invariant 0 <= pair <= size / 2 && right == (if size - 1 - 2 * pair >= 6 then size - 1 - 2 * pair else size - 2 - 2 * pair)
      invariant Drawn(Image(modules), before, Bits(data), Free(isFunction, Path(size, Step(pair, 0, 0))))
      invariant i == Fewer(|Free(isFunction, Path(size, Step(pair, 0, 0)))|, |Bits(data)|)
      decreases right
    {
      if right == 6 {
        right := 5;
      }
      assert right == Right(size, pair);
      for vert := 0 to size
        invariant Drawn(Image(modules), before, Bits(data), Free(isFunction, Path(size, Step(pair, vert, 0))))
        invariant i == Fewer(|Free(isFunction, Path(size, Step(pair, vert, 0)))|, |Bits(data)|)
      {
        for j := 0 to 2
          invariant Drawn(Image(modules), before, Bits(data), Free(isFunction, Path(size, Step(pair, vert, j))))
          invariant i == Fewer(|Free(isFunction, Path(size, Step(pair, vert, j)))|, |Bits(data)|)
        {
          var x := right - j;
          var upward := Upward(right);
          var y := if upward then size - 1 - vert else vert;
          ghost var s := Step(pair, vert, j);
          SpotOfStep(size, s, right);
          PathGrows(size, s);
          i := Put(modules, isFunction, data, Spot(x, y), i, before, Path(size, s));
        }
        RowDone(size, pair, vert);
      }
      PairDone(size, pair);
      right := right - 2;
      pair := pair + 1;
    }
  }

  lemma NothingDrawn(modules: array2<bool>, isFunction: seq<seq<bool>>, bits: seq<bool>, size: int)
    requires Size(size) && modules.Length0 == modules.Length1 == size && Square(isFunction, size)
    ensures Free(isFunction, Path(size, Step(0, 0, 0))) == []
    ensures Drawn(Image(modules), Image(modules), bits, [])
  {
  }

  lemma SpotOfStep(size: int, s: Step, right: int)
    requires right == Right(size, s.pair)
    ensures Visited(size, s) == Spot(right - s.j, if Upward(right) then size - 1 - s.vert else s.vert)
  {
  }

  lemma PathGrows(size: int, s: Step)
    requires Size(size) && IsStep(s, size)
    ensures Path(size, s.(j := s.j + 1)) == Path(size, s) + [Visited(size, s)]
    ensures Inside(Visited(size, s), size) && Visited(size, s) !in Path(size, s)
  {
    hide Scanned;
    PathScans(size, s);
    OneMore(size, s, Path(size, s));
    VisitedOnce(size, s);
  }

  lemma RowDone(size: int, pair: int, vert: int)
    requires Size(size) && 0 <= pair < size / 2 && 0 <= vert < size
    ensures Path(size, Step(pair, vert + 1, 0)) == Path(size, Step(pair, vert, 2))
  {
  }

  lemma PairDone(size: int, pair: int)
    requires Size(size) && 0 <= pair < size / 2
    ensures Path(size, Step(pair + 1, 0, 0)) == Path(size, Step(pair, size, 0))
  {
  }

  // --- Reading back ---

  /** What a scan reads: the places' modules. */
  ghost function Reading(image: seq<seq<bool>>, places: seq<Spot>): (bits: seq<bool>)
    requires Square(image, |image|) && forall p :: p in places ==> Inside(p, |image|)
    ensures |bits| == |places|
  {
    seq(|places|, k requires 0 <= k < |places| => Module(image, places[k]))
  }

  lemma ReadingIsBits(image: seq<seq<bool>>, before: seq<seq<bool>>, bits: seq<bool>, places: seq<Spot>)
    requires Drawn(image, before, bits, places) && |places| >= |bits|
    ensures Reading(image, places)[..|bits|] == bits
  {
    hide Module, Inside, Square;
  }

  /** With enough free modules the scan reads back exactly the codewords. */
  lemma CodewordsReadBack(image: seq<seq<bool>>, before: seq<seq<bool>>, places: seq<Spot>, data: seq<bv8>)
    requires Drawn(image, before, Bits(data), places) && |places| >= 8 * |data|
    ensures Bytes(Reading(image, places)[..8 * |data|]) == data
  {
    hide Bits, Bytes, Drawn, Reading;
    ReadingIsBits(image, before, Bits(data), places);
    BytesOfBits(data);
  }
}
