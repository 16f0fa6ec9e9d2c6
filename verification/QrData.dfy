/** The data codewords of a QR code: choosing the version and the error correction level, joining the segments,
  * terminating and padding them. Sections 7.4.2, 7.4.9 and 7.4.10 of ISO/IEC 18004:2015. */
module QrData {
  import opened QrBits
  import opened QrSegments

  const MIN_VERSION := 1
  const MAX_VERSION := 40

  /** How many data codewords a version has at an error correction level, 0 for low to 3 for high. The numbers come
    * from the standard's tables. */
  type Capacity = (int, int) -> nat

  datatype Result =
    | InvalidValue
    | DataTooLong
    | Made(version: int, ecl: int, codewords: seq<bv8>)

  // --- The length of the data ---

  function MoreBits(before: int, s: Segment, version: int): int
  {
    var ccbits := s.mode.CountBits(version);
    if before == -1 || s.numChars >= Pow2(ccbits) || 4 + ccbits > INT_MAX - before
       || |s.data| > INT_MAX - (before + 4 + ccbits) then -1
    else before + 4 + ccbits + |s.data|
  }

  /** The number of bits the segments take, -1 if a count or the number itself does not fit. */
  function TotalBits(segs: seq<Segment>, version: int): (r: int)
    ensures -1 <= r <= INT_MAX
  {
    if segs == [] then 0 else MoreBits(TotalBits(segs[..|segs| - 1], version), segs[|segs| - 1], version)
  }

  lemma {:induction false} NoMoreBits(segs: seq<Segment>, version: int, n: nat)
    requires n <= |segs| && TotalBits(segs[..n], version) == -1
    ensures TotalBits(segs, version) == -1
    decreases |segs| - n
  {
    if n < |segs| {
      assert segs[..n + 1][..n] == segs[..n];
      NoMoreBits(segs, version, n + 1);
    } else {
      assert segs[..n] == segs;
    }
  }

  /** getTotalBits. */
  method GetTotalBits(segs: seq<Segment>, version: int) returns (result: int)
    ensures result == TotalBits(segs, version)
  {
    result := 0;
    for i := 0 to |segs|
      invariant result == TotalBits(segs[..i], version) && result >= 0
    {
      var seg := segs[i];
      var ccbits := seg.mode.CountBits(version);
      assert segs[..i + 1][..i] == segs[..i];
      if seg.numChars >= Pow2(ccbits) || 4 + ccbits > INT_MAX - result {
        NoMoreBits(segs, version, i + 1);
        return -1;
      }
      result := result + 4 + ccbits;
      if |seg.data| > INT_MAX - result {
        NoMoreBits(segs, version, i + 1);
        return -1;
      }
      result := result + |seg.data|;
    }
    assert segs[..|segs|] == segs;
  }

  predicate Fits(segs: seq<Segment>, version: int, ecl: int, capacity: Capacity)
  {
    TotalBits(segs, version) != -1 && TotalBits(segs, version) <= capacity(version, ecl) * 8
  }

  // --- The bits ---

  function Header(s: Segment, version: int): seq<bool>
  {
    Digits(s.mode.Bits(), 4) + Digits(s.numChars, s.mode.CountBits(version))
  }

  function Content(segs: seq<Segment>, version: int): seq<bool>
  {
    if segs == [] then [] else
    Content(segs[..|segs| - 1], version) + (Header(segs[|segs| - 1], version) + segs[|segs| - 1].data)
  }

  lemma {:induction false} ContentLength(segs: seq<Segment>, version: int)
    requires TotalBits(segs, version) != -1
    ensures |Content(segs, version)| == TotalBits(segs, version)
    ensures forall k | 0 <= k < |segs| :: segs[k].numChars < Pow2(segs[k].mode.CountBits(version))
  {
    if segs != [] {
      ContentLength(segs[..|segs| - 1], version);
    }
  }

  predicate CountFits(s: Segment, version: int) { s.numChars < Pow2(s.mode.CountBits(version)) }

  /** There is no total exactly when some count does not fit its field or the bits are more than an int can count. */
  lemma {:induction false} NoTotal(segs: seq<Segment>, version: int)
    ensures TotalBits(segs, version) == -1
       <==> (exists k :: 0 <= k < |segs| && !CountFits(segs[k], version)) || |Content(segs, version)| > INT_MAX
  {
    if segs != [] {
      var n := |segs| - 1;
      var before, last := segs[..n], segs[n];
      NoTotal(before, version);
      if TotalBits(before, version) != -1 {
        ContentLength(before, version);
        assert forall k :: 0 <= k < n ==> segs[k] == before[k];
      } else if exists k :: 0 <= k < n && !CountFits(before[k], version) {
        var k :| 0 <= k < n && !CountFits(before[k], version);
        assert !CountFits(segs[k], version);
      }
    }
  }

  /** There is room exactly when every count fits its field and the bits of all segments are no more than an int can count
    * and than the codewords have. */
  lemma RoomExactly(segs: seq<Segment>, version: int, ecl: int, capacity: Capacity)
    ensures Fits(segs, version, ecl, capacity)
       <==> && (forall k | 0 <= k < |segs| :: CountFits(segs[k], version))
            && |Content(segs, version)| <= INT_MAX && |Content(segs, version)| <= 8 * capacity(version, ecl)
  {
    NoTotal(segs, version);
    if TotalBits(segs, version) != -1 {
      ContentLength(segs, version);
    }
    hide Content, TotalBits, CountFits;
  }

  function Zeros(n: nat): (z: seq<bool>)
    ensures |z| == n && forall k | 0 <= k < n :: !z[k]
  {
    seq(n, _ => false)
  }

  function PadByte(n: nat): nat { if n % 2 == 0 then 0xEC else 0x11 }

  /** n padding bytes, which alternate. */
  function Pads(n: nat): (bits: seq<bool>)
    ensures |bits| == 8 * n
  {
    if n == 0 then [] else Pads(n - 1) + Digits(PadByte(n - 1), 8)
  }

  function Fewer(a: int, b: int): int { if a < b then a else b }

  /** How long the terminator is, how many bits fill up its byte and how many bytes the rest. */
  function Terminator(used: nat, size: nat): (t: nat)
    requires used <= 8 * size
    ensures used + t <= 8 * size && (t == 4 || used + t == 8 * size)
  {
    Fewer(4, 8 * size - used)
  }

  function Filler(used: nat, size: nat): (p: nat)
    requires used <= 8 * size
    ensures used + Terminator(used, size) + p <= 8 * size && (used + Terminator(used, size) + p) % 8 == 0
  {
    (8 - (used + Terminator(used, size)) % 8) % 8
  }

  /** The codewords' bits: the segments, up to four zeros, zeros to the end of the byte and padding up to the size. */
  function Filled(content: seq<bool>, size: nat): (bits: seq<bool>)
    requires |content| <= 8 * size
    ensures |bits| == 8 * size
  {
    var t := Terminator(|content|, size);
    var p := Filler(|content|, size);
    content + Zeros(t) + Zeros(p) + Pads(size - (|content| + t + p) / 8)
  }

  lemma {:induction false} ZeroDigits(n: nat)
    ensures Digits(0, n) == Zeros(n)
  {
    if n > 0 {
      ZeroDigits(n - 1);
      assert Zeros(n) == Zeros(n - 1) + [false];
    }
  }

  lemma Powers8()
    ensures Pow2(4) == 16 && Pow2(8) == 256 && forall n: nat :: 0 < Pow2(n)
  {
    Powers();
  }

  /** The terminator and the padding. */
  method Fill(content: seq<bool>, size: nat) returns (bb: seq<bool>)
    requires |content| <= 8 * size
    ensures bb == Filled(content, size)
  {
    hide Digits, Pow2, Pads, Filler, Terminator, Zeros;
    Powers8();
    var t, ok := Fewer(4, 8 * size - |content|), true;
    ZeroDigits(t);
    ok, bb := AppendBits(content, 0, t);
    var p := (8 - |bb| % 8) % 8;
    FillerIs(|content|, size, t, p);
    ZeroDigits(p);
    ok, bb := AppendBits(bb, 0, p);
    bb := Pad(bb, size);
  }

  lemma FillerIs(used: nat, size: nat, t: nat, p: nat)
    requires used <= 8 * size && t == Fewer(4, 8 * size - used) && p == (8 - (used + t) % 8) % 8
    ensures t == Terminator(used, size) <= 4 && p == Filler(used, size) <= 7
  {
  }

  method Pad(start: seq<bool>, size: nat) returns (bb: seq<bool>)
    requires |start| <= 8 * size && |start| % 8 == 0
    ensures bb == start + Pads(size - |start| / 8)
  {
    hide Digits, Pow2;
    Powers8();
    var ok, padByte := true, 0xEC;
    bb := start;
    assert start + Pads(0) == start;
    ghost var n, k := 0, |start| / 8;
    while |bb| < 8 * size
      invariant bb == start + Pads(n) && k + n <= size && padByte == PadByte(n)
      decreases size - n
    {
      ok, bb := AppendBits(bb, padByte, 8);
      Regroup(start, Pads(n), Digits(padByte, 8));
      n := n + 1;
      // The two padding bytes take turns
      padByte := 0xEC + 0x11 - padByte;
    }
  }

  method Join(segs: seq<Segment>, version: int) returns (bb: seq<bool>)
    requires TotalBits(segs, version) != -1
    ensures bb == Content(segs, version)
  {
    hide Digits, Pow2, TotalBits;
    ContentLength(segs, version);
    Powers8();
    bb := [];
    var ok := true;
    for i := 0 to |segs|
      invariant bb == Content(segs[..i], version)
    {
      var seg := segs[i];
      CountBitsFew(seg.mode, version);
      ok, bb := AppendBits(bb, seg.mode.Bits(), 4);
      ok, bb := AppendBits(bb, seg.numChars, seg.mode.CountBits(version));
      bb := bb + seg.data;
      assert segs[..i + 1][..i] == segs[..i];
      JoinedMore(Content(segs[..i], version), Digits(seg.mode.Bits(), 4),
                 Digits(seg.numChars, seg.mode.CountBits(version)), seg.data);
    }
    assert segs[..|segs|] == segs;
  }

  lemma CountBitsFew(m: Mode, version: int)
    ensures 0 <= m.CountBits(version) <= 31 && 0 < m.Bits() < 16
  {
  }

  lemma JoinedMore(a: seq<bool>, b: seq<bool>, c: seq<bool>, d: seq<bool>)
    ensures a + b + c + d == a + (b + c + d)
  {
  }

  // --- The version ---

  predicate ValidRange(minVersion: int, maxVersion: int, mask: int)
  {
    MIN_VERSION <= minVersion <= maxVersion <= MAX_VERSION && -1 <= mask <= 7
  }

  /** The smallest version of the range with room, nothing if none has. */
  method FindVersion(segs: seq<Segment>, ecl: int, minVersion: int, maxVersion: int, capacity: Capacity)
    returns (found: bool, version: int, dataUsedBits: int)
    requires minVersion <= maxVersion
    ensures found <==> exists v | minVersion <= v <= maxVersion :: Fits(segs, v, ecl, capacity)
    ensures found ==> minVersion <= version <= maxVersion && Fits(segs, version, ecl, capacity)
    ensures found ==> forall v | minVersion <= v < version :: !Fits(segs, v, ecl, capacity)
    ensures found ==> dataUsedBits == TotalBits(segs, version)
  {
    version := minVersion;
    while true
      invariant minVersion <= version <= maxVersion
      invariant forall v | minVersion <= v < version :: !Fits(segs, v, ecl, capacity)
      decreases maxVersion - version
    {
      dataUsedBits := GetTotalBits(segs, version);
      if dataUsedBits != -1 && dataUsedBits <= capacity(version, ecl) * 8 {
        assert Fits(segs, version, ecl, capacity);
        return true, version, dataUsedBits;
      }
      if version >= maxVersion {
        return false, version, dataUsedBits;
      }
      version := version + 1;
    }
  }

  /** The highest level that still has room. */
  method Boost(used: int, version: int, ecl: int, capacity: Capacity) returns (boosted: int)
    requires 0 <= ecl <= 3 && used <= capacity(version, ecl) * 8
    ensures ecl <= boosted <= 3 && used <= capacity(version, boosted) * 8
    ensures forall e | boosted < e <= 3 :: used > capacity(version, e) * 8
  {
    boosted := ecl;
    for newEcl := 1 to 4
      invariant 0 <= boosted <= 3 && used <= capacity(version, boosted) * 8
      invariant boosted == ecl || 1 <= boosted < newEcl
      invariant newEcl > ecl ==> boosted >= ecl
      invariant forall e | 1 <= e < newEcl && e > boosted :: used > capacity(version, e) * 8
      invariant newEcl <= ecl ==> boosted <= ecl
      invariant boosted < newEcl || boosted == ecl
    {
      if used <= capacity(version, newEcl) * 8 {
        boosted := newEcl;
      }
    }
  }

  /** encodeSegments up to the data codewords. */
  method EncodeSegments(segs: seq<Segment>, ecl: int, minVersion: int, maxVersion: int, mask: int, boostEcl: bool,
                        capacity: Capacity)
    returns (result: Result)
    requires 0 <= ecl <= 3
    ensures result.InvalidValue? <==> !(1 <= minVersion <= maxVersion <= 40 && -1 <= mask <= 7)
    ensures result.DataTooLong? <==> 1 <= minVersion <= maxVersion <= 40 && -1 <= mask <= 7
                                     && forall v | minVersion <= v <= maxVersion :: !Fits(segs, v, ecl, capacity)
    ensures result.Made? ==>
      && minVersion <= result.version <= maxVersion
      && Fits(segs, result.version, ecl, capacity)
      && (forall v | minVersion <= v < result.version :: !Fits(segs, v, ecl, capacity))
      && ecl <= result.ecl <= 3 && (!boostEcl ==> result.ecl == ecl)
      && Fits(segs, result.version, result.ecl, capacity)
      && (boostEcl ==> forall e | result.ecl < e <= 3 :: !Fits(segs, result.version, e, capacity))
      && IsData(segs, result.version, capacity(result.version, result.ecl), result.codewords)
  {
    hide Fits, Filled, Content;
    if !ValidRange(minVersion, maxVersion, mask) {
      return InvalidValue;
    }
    var found, version, dataUsedBits := FindVersion(segs, ecl, minVersion, maxVersion, capacity);
    if !found {
      return DataTooLong;
    }
    FitsIs(segs, version, capacity);
    var level := ecl;
    if boostEcl {
      level := Boost(dataUsedBits, version, ecl, capacity);
    }
    ContentLength(segs, version);
    var bb := Join(segs, version);
    bb := Fill(bb, capacity(version, level));
    var codewords := Pack(bb);
    result := Made(version, level, codewords[..]);
  }

  lemma FitsIs(segs: seq<Segment>, version: int, capacity: Capacity)
    ensures forall e :: Fits(segs, version, e, capacity)
                        <==> TotalBits(segs, version) != -1 && TotalBits(segs, version) <= capacity(version, e) * 8
  {
  }

  /** These codewords are the segments' data, filled up to the size. */
  predicate IsData(segs: seq<Segment>, version: int, size: nat, codewords: seq<bv8>)
  {
    && TotalBits(segs, version) != -1
    && |Content(segs, version)| <= 8 * size
    && Bits(codewords) == Filled(Content(segs, version), size)
  }

  // --- Reading back ---

  datatype Parsed = Parsed(mode: Mode, symbols: seq<nat>)

  datatype MaybeMode = NoMode | SomeMode(mode: Mode)

  function ModeFrom(v: nat): MaybeMode
  {
    if v == 1 then SomeMode(Numeric) else if v == 2 then SomeMode(Alphanumeric) else if v == 4 then SomeMode(Byte) else NoMode
  }

  /** What a reader does: mode, count and groups of each segment until the terminator, or the end if there is no room
    * for one. */
  function Parse(bits: seq<bool>, version: int): seq<Parsed>
    decreases |bits|
  {
    if |bits| < 4 then [] else
    var m := ModeFrom(ValueOf(bits[..4]));
    if m.NoMode? then [] else
    var start := 4 + m.mode.CountBits(version);
    if |bits| < start then [] else
    var count := ValueOf(bits[4..start]);
    var end := start + EncodedLength(m.mode, count);
    if |bits| < end then [] else
    [Parsed(m.mode, Decode(m.mode, bits[start..], count))] + Parse(bits[end..], version)
  }

  /** A segment that one of the modes made of its text. */
  predicate Sound(s: Segment, text: seq<Char>) { Makes(s.mode, text, s) }

  function Read(s: Segment, text: seq<Char>): Parsed { Parsed(s.mode, Values(s.mode, text)) }

  lemma ParseSegment(s: Segment, text: seq<Char>, version: int, rest: seq<bool>)
    requires Sound(s, text) && s.numChars < Pow2(s.mode.CountBits(version))
    ensures Parse(Header(s, version) + s.data + rest, version) == [Read(s, text)] + Parse(rest, version)
  {
    hide Digits, ValueOf, Encode, Decode, Values, Pow2, EncodedLength, Encodable;
    var xs, cc := Values(s.mode, text), s.mode.CountBits(version);
    var bits := Header(s, version) + s.data + rest;
    SymbolsOf(s.mode, text);
    DecodeEncode(s.mode, xs, rest);
    CountBitsFew(s.mode, version);
    Powers8();
    DigitsReadBack(s.mode.Bits(), 4);
    DigitsReadBack(s.numChars, cc);
    assert bits[..4] == Digits(s.mode.Bits(), 4);
    assert bits[4..4 + cc] == Digits(s.numChars, cc);
    assert bits[4 + cc..] == s.data + rest;
    assert bits[4 + cc + |s.data|..] == rest;
  }

  lemma SymbolsOf(m: Mode, text: seq<Char>)
    requires Encodable(m, text)
    ensures Symbols(m, Values(m, text)) && |Values(m, text)| == |text|
  {
  }

  lemma NothingToParse(bits: seq<bool>, version: int)
    requires |bits| < 4 || bits[..4] == Zeros(4)
    ensures Parse(bits, version) == []
  {
    hide Digits;
    Powers8();
    ZeroDigits(4);
    DigitsReadBack(0, 4);
  }

  predicate AllSound(segs: seq<Segment>, texts: seq<seq<Char>>)
  {
    |segs| == |texts| && forall k | 0 <= k < |segs| :: Sound(segs[k], texts[k])
  }

  function AllRead(segs: seq<Segment>, texts: seq<seq<Char>>): seq<Parsed>
    requires |segs| == |texts|
  {
    if segs == [] then [] else AllRead(segs[..|segs| - 1], texts[..|segs| - 1]) + [Read(segs[|segs| - 1], texts[|segs| - 1])]
  }

  lemma ReadsRegroup(a: seq<Parsed>, b: seq<Parsed>, c: seq<Parsed>)
    ensures a + b + c == a + (b + c)
  {
  }

  lemma {:induction false} ParseContent(segs: seq<Segment>, texts: seq<seq<Char>>, version: int, rest: seq<bool>)
    requires AllSound(segs, texts)
    requires forall k | 0 <= k < |segs| :: segs[k].numChars < Pow2(segs[k].mode.CountBits(version))
    ensures Parse(Content(segs, version) + rest, version) == AllRead(segs, texts) + Parse(rest, version)
  {
    if segs == [] {
      assert [] + rest == rest && [] + Parse(rest, version) == Parse(rest, version);
    } else {
      hide Parse, Header, Sound, Read;
      var n := |segs| - 1;
      var s, text := segs[n], texts[n];
      ParseSegment(s, text, version, rest);
      ParseContent(segs[..n], texts[..n], version, Header(s, version) + s.data + rest);
      hide Pow2, AllSound;
      Regroup(Content(segs[..n], version), Header(s, version) + s.data, rest);
      ReadsRegroup(AllRead(segs[..n], texts[..n]), [Read(s, text)], Parse(rest, version));
    }
  }

  /** What follows the segments. */
  function Padding(used: nat, size: nat): seq<bool>
    requires used <= 8 * size
  {
    var t := Terminator(used, size);
    var p := Filler(used, size);
    Zeros(t) + Zeros(p) + Pads(size - (used + t + p) / 8)
  }

  lemma FilledIs(content: seq<bool>, size: nat)
    requires |content| <= 8 * size
    ensures Filled(content, size) == content + Padding(|content|, size)
  {
    hide Pads, Terminator, Filler;
  }

  lemma PaddingReadsAsNothing(used: nat, size: nat, version: int)
    requires used <= 8 * size
    ensures Parse(Padding(used, size), version) == []
  {
    hide Pads, Filler, Parse;
    var t, p := Terminator(used, size), Filler(used, size);
    var pads := Pads(size - (used + t + p) / 8);
    Regroup(Zeros(t), Zeros(p), pads);
    if t == 4 {
      assert (Zeros(t) + (Zeros(p) + pads))[..4] == Zeros(4);
    } else {
      FewBits(used, t, p, size);
    }
    NothingToParse(Padding(used, size), version);
  }

  lemma FewBits(used: nat, t: nat, p: nat, size: nat)
    requires t < 4 && used + t == 8 * size && used + t + p <= 8 * size
    ensures |Zeros(t) + Zeros(p) + Pads(size - (used + t + p) / 8)| < 4
  {
    hide Pads;
  }

  /** A reader of the codewords gets exactly the segments' symbols back, and nothing of the padding. */
  lemma SegmentsReadBack(segs: seq<Segment>, texts: seq<seq<Char>>, version: int, size: nat, codewords: seq<bv8>)
    requires AllSound(segs, texts) && IsData(segs, version, size, codewords)
    ensures |codewords| == size
    ensures Parse(Bits(codewords), version) == AllRead(segs, texts)
  {
    hide Bits, Parse, Content, Filled, Padding, AllRead;
    var content := Content(segs, version);
    assert |codewords| == size by {
      assert |Bits(codewords)| == 8 * |codewords|;
    }
    ContentLength(segs, version);
    FilledIs(content, size);
    ParseContent(segs, texts, version, Padding(|content|, size));
    PaddingReadsAsNothing(|content|, size, version);
    assert AllRead(segs, texts) + [] == AllRead(segs, texts);
  }

  /** The text of a code comes back from its codewords. */
  lemma TextReadsBack(text: seq<Char>, version: int, size: nat, codewords: seq<bv8>, segs: seq<Segment>)
    requires text != [] && IsData(segs, version, size, codewords)
    requires segs == [Segment(ModeOf(text), |text|, Encode(ModeOf(text), Values(ModeOf(text), text)))]
    ensures var parsed := Parse(Bits(codewords), version);
      && |parsed| == 1
      && Symbols(parsed[0].mode, parsed[0].symbols)
      && TextOf(parsed[0].mode, parsed[0].symbols) == text
  {
    hide Bits, Parse, Content, Encode, Values, TextOf;
    BytesEncodable(text);
    assert AllSound(segs, [text]);
    SegmentsReadBack(segs, [text], version, size, codewords);
    TextComesBack(ModeOf(text), text);
    assert segs[..0] == [];
  }

  lemma BytesEncodable(text: seq<Char>)
    ensures Encodable(ModeOf(text), text)
  {
  }
}
