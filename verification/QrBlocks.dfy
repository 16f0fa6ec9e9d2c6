/** Splitting a QR code's data into blocks, adding error correction to each and interleaving them.
  * Section 7.6 of ISO/IEC 18004:2015. The numbers that come from the standard's tables are parameters. */
module QrBlocks {
  import opened Galois
  import opened ReedSolomon

  /** How many blocks, how many error correction codewords each, and how many codewords altogether. */
  datatype Layout = Layout(blocks: nat, ecc: nat, raw: nat) {
    /** What the tables guarantee: at least one block, and room for the error correction in each. */
    predicate Valid() { 1 <= blocks && 1 <= ecc <= 255 && ecc <= raw / blocks }

    /** The first blocks are short, the rest hold one data codeword more. */
    function Short(): (s: nat)
      requires Valid()
      ensures 1 <= s <= blocks
    {
      blocks - raw % blocks
    }

    function ShortData(): nat
      requires Valid()
    {
      raw / blocks - ecc
    }

    /** With the padding of the short blocks. */
    function Height(): nat
      requires Valid()
    {
      raw / blocks + 1
    }

    function DataLength(): int { raw - blocks * ecc }

    /** Where the data of the j-th block starts. */
    function Start(j: nat): nat
      requires Valid()
    {
      j * ShortData() + if j <= Short() then 0 else j - Short()
    }

    /** Where the i-th row of the interleaving starts. The row after the short blocks' data lacks them. */
    function RowStart(i: nat): int
      requires Valid()
    {
      i * blocks - if i <= ShortData() then 0 else Short()
    }

    /** Block j has something to put in row i. */
    predicate Cell(i: nat, j: nat)
      requires Valid()
    {
      i < Height() && j < blocks && (i == ShortData() ==> j >= Short())
    }

    function Position(i: nat, j: nat): int
      requires Valid()
    {
      RowStart(i) + if i == ShortData() then j - Short() else j
    }
  }

  // --- Rows ---

  predicate Grid(blocks: seq<seq<Elem>>, l: Layout)
    requires l.Valid()
  {
    |blocks| == l.blocks && forall j | 0 <= j < |blocks| :: |blocks[j]| == l.Height()
  }

  /** What the first j blocks put in row i. */
  function Row(blocks: seq<seq<Elem>>, l: Layout, i: nat, j: nat): seq<Elem>
    requires l.Valid() && Grid(blocks, l) && i < l.Height() && j <= l.blocks
  {
    if j == 0 then [] else
    Row(blocks, l, i, j - 1) + if i != l.ShortData() || j - 1 >= l.Short() then [blocks[j - 1][i]] else []
  }

  /** The first i rows. */
  function Rows(blocks: seq<seq<Elem>>, l: Layout, i: nat): seq<Elem>
    requires l.Valid() && Grid(blocks, l) && i <= l.Height()
  {
    if i == 0 then [] else Rows(blocks, l, i - 1) + Row(blocks, l, i - 1, l.blocks)
  }

  lemma {:induction false} RowHolds(blocks: seq<seq<Elem>>, l: Layout, i: nat, j: nat)
    requires l.Valid() && Grid(blocks, l) && i < l.Height() && j <= l.blocks
    ensures |Row(blocks, l, i, j)| == if i != l.ShortData() then j else if j <= l.Short() then 0 else j - l.Short()
    ensures forall k | 0 <= k < j && l.Cell(i, k) ::
              Row(blocks, l, i, j)[l.Position(i, k) - l.RowStart(i)] == blocks[k][i]
  {
    if j > 0 {
      RowHolds(blocks, l, i, j - 1);
    }
  }

  lemma RowEnds(l: Layout, i: nat)
    requires l.Valid() && i < l.Height()
    ensures l.RowStart(i + 1) == l.RowStart(i) + if i == l.ShortData() then l.blocks - l.Short() else l.blocks
  {
    assert (i + 1) * l.blocks == i * l.blocks + l.blocks;
  }

  lemma {:induction false} RowsLength(blocks: seq<seq<Elem>>, l: Layout, i: nat)
    requires l.Valid() && Grid(blocks, l) && i <= l.Height()
    ensures |Rows(blocks, l, i)| == l.RowStart(i)
  {
    if i > 0 {
      RowsLength(blocks, l, i - 1);
      RowHolds(blocks, l, i - 1, l.blocks);
      RowEnds(l, i - 1);
    }
  }

  lemma {:induction false} RowsHold(blocks: seq<seq<Elem>>, l: Layout, rows: nat, i: nat, j: nat)
    requires l.Valid() && Grid(blocks, l) && rows <= l.Height()
    requires l.Cell(i, j) && i < rows
    ensures 0 <= l.Position(i, j) < |Rows(blocks, l, rows)|
    ensures Rows(blocks, l, rows)[l.Position(i, j)] == blocks[j][i]
  {
    RowsLength(blocks, l, rows - 1);
    RowHolds(blocks, l, rows - 1, l.blocks);
    if i < rows - 1 {
      RowsHold(blocks, l, rows - 1, i, j);
    }
  }

  // --- Every position once ---

  lemma WholeHeight(l: Layout)
    requires l.Valid()
    ensures l.RowStart(l.Height()) == l.raw && l.DataLength() >= 0
    ensures l.Start(l.blocks) == l.DataLength()
  {
    var n, full, left := l.blocks, l.raw / l.blocks, l.raw % l.blocks;
    assert l.raw == full * n + left;
    assert (full + 1) * n == full * n + n;
    assert n * (full - l.ecc) == full * n - n * l.ecc;
    assert n * l.ShortData() >= 0;
  }

  lemma {:induction false} RowsAscend(l: Layout, i: nat, k: nat)
    requires l.Valid() && i <= k <= l.Height()
    ensures l.RowStart(i) <= l.RowStart(k)
    decreases k - i
  {
    if i < k {
      RowEnds(l, i);
      RowsAscend(l, i + 1, k);
    }
  }

  lemma PositionInRow(l: Layout, i: nat, j: nat)
    requires l.Valid() && l.Cell(i, j)
    ensures l.RowStart(i) <= l.Position(i, j) < l.RowStart(i + 1)
  {
    RowEnds(l, i);
  }

  /** Different cells go to different positions below the number of codewords. */
  lemma PositionsDiffer(l: Layout, i: nat, j: nat, k: nat, m: nat)
    requires l.Valid() && l.Cell(i, j) && l.Cell(k, m)
    ensures 0 <= l.Position(i, j) < l.raw
    ensures l.Position(i, j) == l.Position(k, m) ==> i == k && j == m
  {
    hide l.Position, l.RowStart;
    WholeHeight(l);
    PositionInRow(l, i, j);
    PositionInRow(l, k, m);
    RowsAscend(l, 0, i);
    RowsAscend(l, i + 1, l.Height());
    if i < k {
      RowsAscend(l, i + 1, k);
    } else if k < i {
      RowsAscend(l, k + 1, i);
    }
    SameRow(l, i, j, m);
  }

  lemma SameRow(l: Layout, i: nat, j: nat, m: nat)
    requires l.Valid()
    ensures l.Position(i, j) == l.Position(i, m) ==> j == m
    ensures l.RowStart(0) == 0
  {
  }

  /** And every position is some cell's. */
  lemma {:induction false} CellAt(l: Layout, p: nat, rows: nat) returns (i: nat, j: nat)
    requires l.Valid() && rows <= l.Height() && p < l.RowStart(rows)
    ensures l.Cell(i, j) && l.Position(i, j) == p
  {
    SameRow(l, 0, 0, 0);
    RowEnds(l, rows - 1);
    if p < l.RowStart(rows - 1) {
      i, j := CellAt(l, p, rows - 1);
    } else {
      i := rows - 1;
      j := p - l.RowStart(i) + if i == l.ShortData() then l.Short() else 0;
    }
  }

  /** They go row by row, and in each row block by block. */
  lemma PositionsAscend(l: Layout, i: nat, j: nat, k: nat, m: nat)
    requires l.Valid() && l.Cell(i, j) && l.Cell(k, m)
    ensures l.Position(i, j) < l.Position(k, m) <==> i < k || (i == k && j < m)
  {
    PositionsDiffer(l, i, j, k, m);
    PositionInRow(l, i, j);
    PositionInRow(l, k, m);
    InRow(l, i, j, m);
    hide l.Position, l.RowStart;
    if i < k {
      RowsAscend(l, i + 1, k);
    } else if k < i {
      RowsAscend(l, k + 1, i);
    }
  }

  lemma InRow(l: Layout, i: nat, j: nat, m: nat)
    requires l.Valid()
    ensures l.Position(i, j) - l.Position(i, m) == j - m
  {
  }

  // --- Taking the blocks out again ---

  function BlockLength(l: Layout, j: nat): nat
    requires l.Valid()
  {
    l.ShortData() + if j < l.Short() then 0 else 1
  }

  predicate Whole(codewords: seq<Elem>, l: Layout) { l.Valid() && |codewords| == l.raw }

  lemma CellPosition(l: Layout, i: nat, j: nat)
    requires l.Valid() && l.Cell(i, j)
    ensures 0 <= l.Position(i, j) < l.raw
  {
    PositionsDiffer(l, i, j, i, j);
  }

  function At(codewords: seq<Elem>, l: Layout, i: nat, j: nat): Elem
    requires Whole(codewords, l) && l.Cell(i, j)
  {
    CellPosition(l, i, j);
    codewords[l.Position(i, j)]
  }

  /** The data of block j: its codewords of the first rows. */
  function BlockData(codewords: seq<Elem>, l: Layout, j: nat): seq<Elem>
    requires Whole(codewords, l) && j < l.blocks
  {
    seq(BlockLength(l, j), i requires 0 <= i < BlockLength(l, j) => At(codewords, l, i, j))
  }

  /** Its error correction: its codewords of the last rows. */
  function BlockEcc(codewords: seq<Elem>, l: Layout, j: nat): seq<Elem>
    requires Whole(codewords, l) && j < l.blocks
  {
    seq(l.ecc, i requires 0 <= i < l.ecc => At(codewords, l, l.ShortData() + 1 + i, j))
  }

  lemma RowIs(l: Layout, i: nat)
    requires l.Valid()
    ensures i < l.ShortData() ==> l.RowStart(i) == i * l.blocks
    ensures l.RowStart(l.ShortData()) == l.ShortData() * l.blocks
    ensures l.RowStart(l.ShortData() + 1 + i) == l.DataLength() + i * l.blocks
  {
    var full, n := l.ShortData(), l.blocks;
    assert (full + 1 + i) * n == full * n + n + i * n;
    assert l.raw == (l.raw / n) * n + l.raw % n;
    assert (full + l.ecc) * n == full * n + n * l.ecc;
  }

  /** Where each block's codewords stand: the short blocks come first, the data codewords of all blocks by turns, then the
    * one more of the long blocks, and behind all data the error correction codewords by turns. */
  lemma CodewordsByTurns(codewords: seq<Elem>, l: Layout, j: nat, i: nat)
    requires Whole(codewords, l) && j < l.blocks
    ensures var full, short := l.raw / l.blocks - l.ecc, l.blocks - l.raw % l.blocks;
      && |BlockData(codewords, l, j)| == (if j < short then full else full + 1) && |BlockEcc(codewords, l, j)| == l.ecc
      && (i < full ==> 0 <= i * l.blocks + j < |codewords| && BlockData(codewords, l, j)[i] == codewords[i * l.blocks + j])
      && (j >= short ==> 0 <= full * l.blocks + j - short < |codewords|
                         && BlockData(codewords, l, j)[full] == codewords[full * l.blocks + j - short])
      && (i < l.ecc ==> 0 <= l.DataLength() + i * l.blocks + j < |codewords|
                        && BlockEcc(codewords, l, j)[i] == codewords[l.DataLength() + i * l.blocks + j])
  {
    RowIs(l, i);
    var full := l.ShortData();
    if i < full {
      CellPosition(l, i, j);
    }
    if j >= l.Short() {
      CellPosition(l, full, j);
    }
    if i < l.ecc {
      CellPosition(l, full + 1 + i, j);
    }
    hide l.RowStart;
  }

  lemma StartEnds(l: Layout, j: nat)
    requires l.Valid() && j < l.blocks
    ensures l.Start(j + 1) == l.Start(j) + BlockLength(l, j)
  {
    assert (j + 1) * l.ShortData() == j * l.ShortData() + l.ShortData();
  }

  lemma {:induction false} StartsAscend(l: Layout, j: nat)
    requires l.Valid() && j <= l.blocks
    ensures 0 <= l.Start(j) <= l.DataLength()
    decreases l.blocks - j
  {
    if j < l.blocks {
      StartsAscend(l, j + 1);
      StartEnds(l, j);
    } else {
      WholeHeight(l);
    }
  }

  /** The j-th block's share of the data. */
  function Share(data: seq<Elem>, l: Layout, j: nat): (s: seq<Elem>)
    requires l.Valid() && |data| == l.DataLength() && j < l.blocks
    ensures |s| == BlockLength(l, j)
  {
    StartEnds(l, j);
    StartsAscend(l, j);
    StartsAscend(l, j + 1);
    data[l.Start(j)..l.Start(j + 1)]
  }

  /** The blocks share the data in their order, the short ones first. */
  lemma SharesInOrder(data: seq<Elem>, l: Layout, j: nat)
    requires l.Valid() && |data| == l.DataLength() && j < l.blocks
    ensures var full, short := l.raw / l.blocks - l.ecc, l.blocks - l.raw % l.blocks;
      var start, length := j * full + (if j < short then 0 else j - short), if j < short then full else full + 1;
      0 <= start <= start + length <= |data| && Share(data, l, j) == data[start..start + length]
  {
    StartEnds(l, j);
    StartsAscend(l, j);
    StartsAscend(l, j + 1);
  }

  /** What a block looks like before the interleaving: its data, a padding byte if short, its error correction. */
  function Block(data: seq<Elem>, divisor: seq<Elem>, l: Layout, j: nat): (b: seq<Elem>)
    requires l.Valid() && |data| == l.DataLength() && |divisor| == l.ecc && j < l.blocks
    ensures |b| == l.Height()
  {
    Share(data, l, j) + (if j < l.Short() then [ZERO] else []) + Remainder(Share(data, l, j), divisor)
  }

  predicate Holds(codewords: seq<Elem>, data: seq<Elem>, l: Layout, divisor: seq<Elem>)
    requires Whole(codewords, l) && |data| == l.DataLength()
  {
    && |divisor| == l.ecc
    && forall j | 0 <= j < l.blocks ::
         && BlockData(codewords, l, j) == Share(data, l, j)
         && BlockEcc(codewords, l, j) == Remainder(Share(data, l, j), divisor)
  }

  /** Each block taken out is its share of the data and that share's remainder by the generator polynomial. */
  ghost predicate Encoded(codewords: seq<Elem>, data: seq<Elem>, l: Layout)
  {
    && Whole(codewords, l)
    && |data| == l.DataLength()
    && exists divisor | [ONE] + divisor == Generator(l.ecc) :: Holds(codewords, data, l, divisor)
  }

  /** addEccAndInterleave. The argument is refused unless it is exactly the data the code has room for. */
  method AddEccAndInterleave(data: seq<Elem>, l: Layout) returns (ok: bool, result: seq<Elem>)
    requires l.Valid()
    ensures ok <==> |data| == l.DataLength()
    ensures ok ==> Encoded(result, data, l)
  {
    hide Generator, Remainder, Share, BlockData, BlockEcc, Block, Layout.Start, BlockLength, Holds, Rows, Row;
    ok, result := |data| == l.DataLength(), [];
    if !ok {
      return;
    }
    var degreeOk, div := ComputeDivisor(l.ecc);
    ghost var divisor := div[..];
    var blocks: seq<seq<Elem>> := [];
    var k := 0;
    SplitStarts(l);
    for i := 0 to l.blocks
      invariant k == l.Start(i)
      invariant |blocks| == i && forall j | 0 <= j < i :: blocks[j] == Block(data, divisor, l, j)
      invariant div[..] == divisor
    {
      TurnIs(data, l, i);
      BlockIs(data, divisor, l, i);
      var length := l.raw / l.blocks - l.ecc + if i < l.Short() then 0 else 1;
      var dat := data[k..k + length];
      k := k + |dat|;
      var ecc := ComputeRemainder(dat, div[..]);
      if i < l.Short() {
        dat := dat + [ZERO];
      }
      dat := dat + ecc;
      blocks := blocks + [dat];
    }
    result := Interleave(blocks, l);
    InterleavedHolds(data, divisor, l, blocks);
  }

  lemma InterleavedHolds(data: seq<Elem>, divisor: seq<Elem>, l: Layout, blocks: seq<seq<Elem>>)
    requires l.Valid() && |data| == l.DataLength() && |divisor| == l.ecc && |blocks| == l.blocks
    requires forall j | 0 <= j < l.blocks :: blocks[j] == Block(data, divisor, l, j)
    ensures Grid(blocks, l) && Whole(Rows(blocks, l, l.Height()), l) && Holds(Rows(blocks, l, l.Height()), data, l, divisor)
  {
    hide Share, Remainder, Block, Rows, BlockData, BlockEcc;
    BlocksComeOut(data, divisor, l, blocks);
  }

  lemma SplitStarts(l: Layout)
    requires l.Valid()
    ensures l.Start(0) == 0
  {
  }

  /** A turn of the loop that splits. */
  lemma TurnIs(data: seq<Elem>, l: Layout, i: nat)
    requires l.Valid() && |data| == l.DataLength() && i < l.blocks
    ensures var length := l.raw / l.blocks - l.ecc + if i < l.Short() then 0 else 1;
      && l.Start(i) + length == l.Start(i + 1) <= |data|
      && Share(data, l, i) == data[l.Start(i)..l.Start(i) + length]
  {
    StartEnds(l, i);
    StartsAscend(l, i + 1);
    ShareIs(data, l, i);
    hide Layout.Start, Share;
  }

  lemma ShareIs(data: seq<Elem>, l: Layout, j: nat)
    requires l.Valid() && |data| == l.DataLength() && j < l.blocks
    ensures l.Start(j) + BlockLength(l, j) <= |data|
    ensures Share(data, l, j) == data[l.Start(j)..l.Start(j) + BlockLength(l, j)]
  {
    StartEnds(l, j);
    StartsAscend(l, j + 1);
  }

  lemma BlockIs(data: seq<Elem>, divisor: seq<Elem>, l: Layout, j: nat)
    requires l.Valid() && |data| == l.DataLength() && |divisor| == l.ecc && j < l.blocks
    ensures Block(data, divisor, l, j)
         == if j < l.Short() then Share(data, l, j) + [ZERO] + Remainder(Share(data, l, j), divisor)
            else Share(data, l, j) + Remainder(Share(data, l, j), divisor)
  {
    hide Share, Remainder;
    assert Share(data, l, j) + [] == Share(data, l, j);
  }

  method Interleave(blocks: seq<seq<Elem>>, l: Layout) returns (result: seq<Elem>)
    requires l.Valid() && Grid(blocks, l)
    ensures result == Rows(blocks, l, l.Height())
  {
    result := [];
    for i := 0 to |blocks[0]|
      invariant result == Rows(blocks, l, i)
    {
      for j := 0 to |blocks|
        invariant result == Rows(blocks, l, i) + Row(blocks, l, i, j)
      {
        // Skip the padding byte in short blocks
        if i != l.raw / l.blocks - l.ecc || j >= l.Short() {
          result := result + [blocks[j][i]];
        }
      }
    }
  }

  /** Taking the blocks out of the interleaved codewords gives back the data and the error correction of each. */
  lemma BlocksComeOut(data: seq<Elem>, divisor: seq<Elem>, l: Layout, blocks: seq<seq<Elem>>)
    requires l.Valid() && |data| == l.DataLength() && |divisor| == l.ecc && Grid(blocks, l)
    requires forall j | 0 <= j < l.blocks :: blocks[j] == Block(data, divisor, l, j)
    ensures |Rows(blocks, l, l.Height())| == l.raw
    ensures forall j | 0 <= j < l.blocks ::
              && BlockData(Rows(blocks, l, l.Height()), l, j) == Share(data, l, j)
              && BlockEcc(Rows(blocks, l, l.Height()), l, j) == Remainder(Share(data, l, j), divisor)
  {
    hide Rows, Share, Remainder, Block, BlockData, BlockEcc;
    RowsLength(blocks, l, l.Height());
    WholeHeight(l);
    forall j | 0 <= j < l.blocks
      ensures BlockData(Rows(blocks, l, l.Height()), l, j) == Share(data, l, j)
      ensures BlockEcc(Rows(blocks, l, l.Height()), l, j) == Remainder(Share(data, l, j), divisor)
    {
      BlockComesOut(data, divisor, l, blocks, j);
    }
  }

  lemma BlockComesOut(data: seq<Elem>, divisor: seq<Elem>, l: Layout, blocks: seq<seq<Elem>>, j: nat)
    requires l.Valid() && |data| == l.DataLength() && |divisor| == l.ecc && Grid(blocks, l) && j < l.blocks
    requires blocks[j] == Block(data, divisor, l, j)
    requires |Rows(blocks, l, l.Height())| == l.raw
    ensures BlockData(Rows(blocks, l, l.Height()), l, j) == Share(data, l, j)
    ensures BlockEcc(Rows(blocks, l, l.Height()), l, j) == Remainder(Share(data, l, j), divisor)
  {
    hide Rows, Share, Remainder, l.Position;
    var result := Rows(blocks, l, l.Height());
    forall i | 0 <= i < BlockLength(l, j)
      ensures At(result, l, i, j) == Share(data, l, j)[i]
    {
      RowsHold(blocks, l, l.Height(), i, j);
    }
    forall i | 0 <= i < l.ecc
      ensures At(result, l, l.ShortData() + 1 + i, j) == Remainder(Share(data, l, j), divisor)[i]
    {
      RowsHold(blocks, l, l.Height(), l.ShortData() + 1 + i, j);
    }
  }

  /** The data of the first j blocks, one after the other. */
  function Gathered(codewords: seq<Elem>, l: Layout, j: nat): seq<Elem>
    requires Whole(codewords, l) && j <= l.blocks
  {
    if j == 0 then [] else Gathered(codewords, l, j - 1) + BlockData(codewords, l, j - 1)
  }

  lemma {:induction false} GatheredIs(codewords: seq<Elem>, data: seq<Elem>, l: Layout, j: nat)
    requires Whole(codewords, l) && |data| == l.DataLength() && j <= l.blocks
    requires forall k | 0 <= k < l.blocks :: BlockData(codewords, l, k) == Share(data, l, k)
    ensures l.Start(j) <= |data| && Gathered(codewords, l, j) == data[..l.Start(j)]
  {
    hide BlockData;
    StartsAscend(l, j);
    if j > 0 {
      GatheredIs(codewords, data, l, j - 1);
      StartEnds(l, j - 1);
    } else {
      SplitStarts(l);
    }
  }

  /** Put one after the other again, the blocks are the data. */
  lemma DataComesBack(codewords: seq<Elem>, data: seq<Elem>, l: Layout)
    requires Encoded(codewords, data, l)
    ensures Gathered(codewords, l, l.blocks) == data
  {
    hide Generator, BlockData, BlockEcc, Remainder;
    GatheredIs(codewords, data, l, l.blocks);
    WholeHeight(l);
  }

  /** Every block taken out vanishes at every root of the generator polynomial. */
  lemma BlocksVanish(codewords: seq<Elem>, data: seq<Elem>, l: Layout, j: nat, k: nat)
    requires Encoded(codewords, data, l) && j < l.blocks && k < l.ecc
    ensures Eval(BlockData(codewords, l, j) + BlockEcc(codewords, l, j), Root(k)) == ZERO
  {
    hide Generator, BlockData, BlockEcc, Remainder, Share, Eval, Root;
    var divisor :| [ONE] + divisor == Generator(l.ecc) && Holds(codewords, data, l, divisor);
    CodewordVanishes(Share(data, l, j), l.ecc, divisor, k);
  }
}
