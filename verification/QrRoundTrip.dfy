/** From the text to the modules of a QR code and back. */
module QrRoundTrip {
  import opened Galois
  import opened QrBits
  import opened QrBlocks
  import opened QrData
  import opened QrMask
  import opened QrPlacement
  import opened QrSegments

  function Elems(bytes: seq<bv8>): (e: seq<Elem>)
    ensures |e| == |bytes| && forall k | 0 <= k < |e| :: e[k] == Elem(bytes[k])
  {
    seq(|bytes|, k requires 0 <= k < |bytes| => Elem(bytes[k]))
  }

  function RawOf(elems: seq<Elem>): (b: seq<bv8>)
    ensures |b| == |elems| && forall k | 0 <= k < |b| :: b[k] == elems[k].bits
  {
    seq(|elems|, k requires 0 <= k < |elems| => elems[k].bits)
  }

  /** The modules no function pattern takes, in the order of the scan and with the mask undone. */
  ghost function Unmasked(image: Grid, isFunction: Grid, msk: int): (bits: seq<bool>)
    requires IsMask(msk) && Size(|image|) && Square(image, |image|) && Square(isFunction, |image|)
    ensures |bits| == |Places(isFunction, |image|)|
  {
    PlacesInside(isFunction, |image|);
    Reading(Masked(image, isFunction, msk), Places(isFunction, |image|))
  }

  /** What a reader makes of codewords, without using the error correction. */
  ghost function ReadCodewords(codewords: seq<bv8>, l: Layout, version: int): seq<Parsed>
    requires l.Valid() && |codewords| == l.raw
  {
    Parse(Bits(RawOf(Gathered(Elems(codewords), l, l.blocks))), version)
  }

  /** What a reader makes of a code's modules: it undoes the mask, follows the scan over the modules no function pattern
    * takes, takes the blocks' data out of the interleaving and parses them. */
  ghost function ReadCode(image: Grid, isFunction: Grid, msk: int, l: Layout, version: int): seq<Parsed>
    requires l.Valid() && IsMask(msk) && Size(|image|) && Square(image, |image|) && Square(isFunction, |image|)
    requires |Places(isFunction, |image|)| >= 8 * l.raw
  {
    ReadCodewords(FirstBytes(Unmasked(image, isFunction, msk), l.raw), l, version)
  }

  function FirstBytes(bits: seq<bool>, n: nat): (bytes: seq<bv8>)
    requires |bits| >= 8 * n
    ensures |bytes| == n
  {
    Bytes(bits[..8 * n])
  }

  lemma PlacesInside(isFunction: Grid, size: int)
    requires Size(size) && Square(isFunction, size)
    ensures forall p :: p in Places(isFunction, size) ==> Inside(p, size) && IsFree(isFunction, p)
  {
    hide Places;
    PlacesAreFreeModules(isFunction, size);
  }

  /** The scan reads the same of the finished code with its mask undone as of the code drawn. */
  lemma UnmaskedReadsTheSame(drawn: Grid, isFunction: Grid, msk: int, format: int -> Format)
    requires IsMask(msk) && Size(|drawn|) && Square(drawn, |drawn|) && Square(isFunction, |drawn|)
    requires OnFunctions(format(msk), isFunction)
    ensures var places := Places(isFunction, |drawn|);
      && (forall p :: p in places ==> Inside(p, |drawn|))
      && Reading(Masked(Finished(drawn, isFunction, msk, format), isFunction, msk), places) == Reading(drawn, places)
  {
    hide Places, Masked, Finished, OnFunctions, IsFree, Module;
    PlacesInside(isFunction, |drawn|);
    forall p | p in Places(isFunction, |drawn|)
      ensures Module(Masked(Finished(drawn, isFunction, msk, format), isFunction, msk), p) == Module(drawn, p)
    {
      UnmaskedIsDrawn(drawn, isFunction, msk, format, p);
    }
  }

  /** A text put through the segments, the blocks with their error correction, the drawing and any mask comes back when
    * the finished code is read, if the code has as many free modules as its codewords have bits. */
  lemma TextSurvives(text: seq<Char>, segs: seq<Segment>, version: int, data: seq<bv8>, l: Layout, codewords: seq<Elem>,
                     drawn: Grid, before: Grid, isFunction: Grid, msk: int, format: int -> Format)
    requires text != []
    requires segs == [Segment(ModeOf(text), |text|, Encode(ModeOf(text), Values(ModeOf(text), text)))]
    requires l.Valid() && l.DataLength() >= 0 && IsData(segs, version, l.DataLength(), data)
    requires Encoded(codewords, Elems(data), l)
    requires Size(|drawn|) && Square(isFunction, |drawn|) && |Places(isFunction, |drawn|)| >= 8 * l.raw
    requires Drawn(drawn, before, Bits(RawOf(codewords)), Places(isFunction, |drawn|))
    requires IsMask(msk) && OnFunctions(format(msk), isFunction)
    ensures var parsed := ReadCode(Finished(drawn, isFunction, msk, format), isFunction, msk, l, version);
      && |parsed| == 1
      && Symbols(parsed[0].mode, parsed[0].symbols)
      && TextOf(parsed[0].mode, parsed[0].symbols) == text
  {
    hide Bits, Bytes, Parse, Gathered, Reading, Encode, Values, IsData, Inside, Symbols, TextOf, Module, Places, Masked,
         Finished, OnFunctions;
    UnmaskedReadsTheSame(drawn, isFunction, msk, format);
    CodewordsReadBack(drawn, before, Places(isFunction, |drawn|), RawOf(codewords));
    assert Elems(RawOf(codewords)) == codewords;
    DataComesBack(codewords, Elems(data), l);
    assert RawOf(Elems(data)) == data;
    TextReadsBack(text, version, l.DataLength(), data, segs);
  }
}
