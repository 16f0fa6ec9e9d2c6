/** The segments of a QR code's data: numbers as bits, and the numeric, alphanumeric and byte modes.
  * Sections 7.4.3 to 7.4.5 of ISO/IEC 18004:2015. */
module QrSegments {

  const INT_MAX := 0x7FFF_FFFF

  // --- Numbers as bits, the highest first ---

  function Pow2(n: nat): (p: nat)
    ensures p >= 1
  {
    if n == 0 then 1 else 2 * Pow2(n - 1)
  }

  function Digits(v: nat, length: nat): (bits: seq<bool>)
    ensures |bits| == length
  {
    if length == 0 then [] else Digits(v / 2, length - 1) + [v % 2 == 1]
  }

  function ValueOf(bits: seq<bool>): nat
  {
    if bits == [] then 0 else 2 * ValueOf(bits[..|bits| - 1]) + if bits[|bits| - 1] then 1 else 0
  }

  lemma {:induction false} DigitsReadBack(v: nat, length: nat)
    requires v < Pow2(length)
    ensures ValueOf(Digits(v, length)) == v
  {
    if length > 0 {
      DigitsReadBack(v / 2, length - 1);
      assert Digits(v, length)[..length - 1] == Digits(v / 2, length - 1);
    }
  }

  /** v >> i. */
  function Shifted(v: nat, i: nat): nat
  {
    if i == 0 then v else Shifted(v, i - 1) / 2
  }

  lemma {:induction false} ShiftedAway(v: nat, i: nat)
    ensures Shifted(v, i) == 0 <==> v < Pow2(i)
  {
    if i > 0 {
      ShiftedFirst(v, i);
      ShiftedAway(v / 2, i - 1);
    }
  }

  lemma {:induction false} ShiftedFirst(v: nat, i: nat)
    requires i > 0
    ensures Shifted(v, i) == Shifted(v / 2, i - 1)
  {
    if i > 1 {
      ShiftedFirst(v, i - 1);
    }
  }

  /** BitBuffer::appendBits. A value that does not fit the length is refused. */
  method AppendBits(bb: seq<bool>, val: nat, len: int) returns (ok: bool, r: seq<bool>)
    ensures ok <==> 0 <= len <= 31 && val < Pow2(len)
    ensures r == if ok then bb + Digits(val, len) else bb
  {
    hide Pow2;
    r := bb;
    if len < 0 || len > 31 {
      return false, r;
    }
    ShiftedAway(val, len);
    if Shifted(val, len) != 0 {
      return false, r;
    }
    ok := true;
    var i := len;
    while i > 0
      invariant 0 <= i <= len && r == bb + Digits(Shifted(val, i), len - i)
    {
      i := i - 1;
      r := r + [Shifted(val, i) % 2 == 1];
    }
  }

  // --- Symbols in groups ---

  datatype Mode = Numeric | Alphanumeric | Byte {
    function Base(): nat { match this case Numeric => 10 case Alphanumeric => 45 case Byte => 256 }

    /** How many characters go together. */
    function Group(): nat { match this case Numeric => 3 case Alphanumeric => 2 case Byte => 1 }

    /** And how many bits k of them take, fewer at the end. */
    function Width(k: nat): nat
    {
      match this
      case Numeric => if k == 3 then 10 else k * 3 + 1
      case Alphanumeric => if k == 2 then 11 else 6
      case Byte => 8
    }

    function Bits(): nat { match this case Numeric => 1 case Alphanumeric => 2 case Byte => 4 }

    function CountBits(version: int): nat
    {
      var size := (version + 7) / 17;
      match this
      case Numeric => if size == 0 then 10 else if size == 1 then 12 else 14
      case Alphanumeric => if size == 0 then 9 else if size == 1 then 11 else 13
      case Byte => if size == 0 then 8 else 16
    }
  }

  predicate Symbols(m: Mode, xs: seq<nat>) { forall k | 0 <= k < |xs| :: xs[k] < m.Base() }

  function Number(m: Mode, xs: seq<nat>): nat
  {
    if xs == [] then 0 else Number(m, xs[..|xs| - 1]) * m.Base() + xs[|xs| - 1]
  }

  function Split(m: Mode, v: nat, k: nat): (xs: seq<nat>)
    ensures |xs| == k
  {
    if k == 0 then [] else Split(m, v / m.Base(), k - 1) + [v % m.Base()]
  }

  lemma Unmultiply(m: Mode, a: nat, b: nat)
    requires b < m.Base()
    ensures (a * m.Base() + b) / m.Base() == a && (a * m.Base() + b) % m.Base() == b
  {
    match m case Numeric => case Alphanumeric => case Byte =>
  }

  lemma SplitMore(m: Mode, a: nat, x: nat, k: nat)
    requires x < m.Base()
    ensures Split(m, a * m.Base() + x, k + 1) == Split(m, a, k) + [x]
  {
    Unmultiply(m, a, x);
  }

  lemma {:induction false} SplitNumber(m: Mode, xs: seq<nat>)
    requires Symbols(m, xs)
    ensures Split(m, Number(m, xs), |xs|) == xs
  {
    if xs != [] {
      hide m.Base, Split;
      var n := |xs| - 1;
      SplitNumber(m, xs[..n]);
      SplitMore(m, Number(m, xs[..n]), xs[n], n);
      assert xs == xs[..n] + [xs[n]];
    }
  }

  lemma GroupFits(m: Mode, xs: seq<nat>)
    requires Symbols(m, xs) && 1 <= |xs| <= m.Group()
    ensures Number(m, xs) < Pow2(m.Width(|xs|)) && m.Width(|xs|) <= 31
  {
    Powers();
    NumberOfFew(m, xs);
    hide Pow2, Number;
    match m case Numeric => case Alphanumeric => case Byte =>
  }

  lemma Powers()
    ensures Pow2(4) == 16 && Pow2(6) == 64 && Pow2(7) == 128 && Pow2(8) == 256 && Pow2(10) == 1024 && Pow2(11) == 2048
  {
    assert Pow2(4) == 16 && Pow2(6) == 4 * Pow2(4);
    assert Pow2(8) == 4 * Pow2(6) && Pow2(10) == 4 * Pow2(8);
  }

  lemma NumberOfFew(m: Mode, xs: seq<nat>)
    ensures |xs| == 1 ==> Number(m, xs) == xs[0]
    ensures |xs| == 2 ==> Number(m, xs) == xs[0] * m.Base() + xs[1]
    ensures |xs| == 3 ==> Number(m, xs) == (xs[0] * m.Base() + xs[1]) * m.Base() + xs[2]
  {
    if |xs| == 2 {
      assert xs[..1] == [xs[0]];
    } else if |xs| == 3 {
      assert xs[..2] == [xs[0], xs[1]] && xs[..2][..1] == [xs[0]];
    }
  }

  function Encode(m: Mode, xs: seq<nat>): seq<bool>
  {
    var g := m.Group();
    if |xs| >= g then Digits(Number(m, xs[..g]), m.Width(g)) + Encode(m, xs[g..])
    else if xs == [] then []
    else Digits(Number(m, xs), m.Width(|xs|))
  }

  function EncodedLength(m: Mode, count: nat): nat
  {
    var g := m.Group();
    if count >= g then m.Width(g) + EncodedLength(m, count - g)
    else if count == 0 then 0
    else m.Width(count)
  }

  /** What a reader does: the bits of each group are a number, whose digits are the symbols. */
  function Decode(m: Mode, bits: seq<bool>, count: nat): seq<nat>
    requires |bits| >= EncodedLength(m, count)
  {
    var g := m.Group();
    if count >= g then Split(m, ValueOf(bits[..m.Width(g)]), g) + Decode(m, bits[m.Width(g)..], count - g)
    else if count == 0 then []
    else Split(m, ValueOf(bits[..m.Width(count)]), count)
  }

  lemma GroupFirst(m: Mode, head: seq<nat>, tail: seq<nat>)
    requires |head| == m.Group()
    ensures Encode(m, head + tail) == Digits(Number(m, head), m.Width(m.Group())) + Encode(m, tail)
  {
    var xs := head + tail;
    assert xs[..m.Group()] == head && xs[m.Group()..] == tail;
  }

  lemma DecodeGroup(m: Mode, bits: seq<bool>, rest: seq<bool>, count: nat)
    requires |bits| == m.Width(m.Group()) && |rest| >= EncodedLength(m, count)
    ensures |bits + rest| >= EncodedLength(m, count + m.Group())
    ensures Decode(m, bits + rest, count + m.Group()) == Split(m, ValueOf(bits), m.Group()) + Decode(m, rest, count)
  {
    hide ValueOf, Split;
    assert (bits + rest)[..m.Width(m.Group())] == bits && (bits + rest)[m.Width(m.Group())..] == rest;
  }

  lemma DecodeMore(m: Mode, head: seq<nat>, tail: seq<nat>, rest: seq<bool>)
    requires |head| == m.Group() && Symbols(m, head)
    requires |Encode(m, tail)| == EncodedLength(m, |tail|) && Decode(m, Encode(m, tail) + rest, |tail|) == tail
    ensures |Encode(m, head + tail)| == EncodedLength(m, |head + tail|)
    ensures Decode(m, Encode(m, head + tail) + rest, |head + tail|) == head + tail
  {
    hide Encode, Decode, Number, Split, ValueOf, Digits, Symbols, EncodedLength, m.Width, m.Group, m.Base;
    var bits, e := Digits(Number(m, head), m.Width(m.Group())), Encode(m, tail);
    GroupIsSome(m);
    GroupReadsBack(m, head);
    GroupFirst(m, head, tail);
    LongerByGroup(m, |tail|);
    DecodeGroup(m, bits, e + rest, |tail|);
    Regroup(bits, e, rest);
  }

  lemma GroupIsSome(m: Mode)
    ensures m.Group() >= 1
  {
  }

  lemma Regroup(a: seq<bool>, b: seq<bool>, c: seq<bool>)
    ensures a + b + c == a + (b + c)
  {
  }

  lemma LongerByGroup(m: Mode, count: nat)
    ensures EncodedLength(m, count + m.Group()) == m.Width(m.Group()) + EncodedLength(m, count)
  {
  }

  /** Reading gives back what was written, whatever comes behind it. */
  lemma {:induction false} DecodeEncode(m: Mode, xs: seq<nat>, rest: seq<bool>)
    requires Symbols(m, xs)
    ensures |Encode(m, xs)| == EncodedLength(m, |xs|)
    ensures Decode(m, Encode(m, xs) + rest, |xs|) == xs
    decreases |xs|
  {
    hide Encode, Decode, EncodedLength, Symbols, m.Width, m.Group, m.Base;
    if xs == [] {
      DecodeNothing(m, rest);
    } else if |xs| < m.Group() {
      DecodeLast(m, xs, rest);
    } else {
      var head, tail := FirstGroup(m, xs);
      DecodeEncode(m, tail, rest);
      DecodeMore(m, head, tail, rest);
    }
  }

  lemma FirstGroup(m: Mode, xs: seq<nat>) returns (head: seq<nat>, tail: seq<nat>)
    requires Symbols(m, xs) && |xs| >= m.Group()
    ensures xs == head + tail && |head| == m.Group() && |tail| < |xs| && Symbols(m, head) && Symbols(m, tail)
  {
    hide m.Base, m.Group;
    GroupIsSome(m);
    head, tail := xs[..m.Group()], xs[m.Group()..];
  }

  lemma DecodeNothing(m: Mode, rest: seq<bool>)
    ensures Encode(m, []) == [] && EncodedLength(m, 0) == 0 && Decode(m, Encode(m, []) + rest, 0) == []
  {
    GroupIsSome(m);
    hide m.Base, m.Group, m.Width, Number, Split, ValueOf, Digits;
  }

  lemma DecodeLast(m: Mode, xs: seq<nat>, rest: seq<bool>)
    requires Symbols(m, xs) && 0 < |xs| < m.Group()
    ensures |Encode(m, xs)| == EncodedLength(m, |xs|)
    ensures Decode(m, Encode(m, xs) + rest, |xs|) == xs
  {
    GroupReadsBack(m, xs);
    hide Number, Split, ValueOf, Digits, Symbols, m.Base, m.Group, m.Width;
    var bits := Digits(Number(m, xs), m.Width(|xs|));
    assert (bits + rest)[..m.Width(|xs|)] == bits;
  }

  lemma GroupReadsBack(m: Mode, xs: seq<nat>)
    requires Symbols(m, xs) && 1 <= |xs| <= m.Group()
    ensures Split(m, ValueOf(Digits(Number(m, xs), m.Width(|xs|))), |xs|) == xs
  {
    GroupFits(m, xs);
    DigitsReadBack(Number(m, xs), m.Width(|xs|));
    SplitNumber(m, xs);
  }

  // --- Characters ---

  /** The bytes of a C string, up to its end. */
  type Char = c: int | 0 < c < 256 witness 1

  const ALPHANUMERIC_CHARSET := "0123456789" + "ABCDEFGHIJKLMNOPQRSTUVWXYZ" + " $%*+-./:"

  /** Where a character first is in a set from its i-th on, its size if it is not. */
  function Find(c: Char, charset: string, i: nat): (k: nat)
    requires i <= |charset|
    ensures i <= k <= |charset|
    ensures k < |charset| ==> charset[k] as int == c
    ensures forall j | i <= j < k :: charset[j] as int != c
    decreases |charset| - i
  {
    if i == |charset| || charset[i] as int == c then i else Find(c, charset, i + 1)
  }

  function Value(m: Mode, c: Char): nat
  {
    match m
    case Numeric => if c >= 48 then c - 48 else 10
    case Alphanumeric => Find(c, ALPHANUMERIC_CHARSET, 0)
    case Byte => c
  }

  predicate Encodable(m: Mode, text: seq<Char>) { forall k | 0 <= k < |text| :: Value(m, text[k]) < m.Base() }

  function Values(m: Mode, text: seq<Char>): (xs: seq<nat>)
    ensures |xs| == |text| && forall k | 0 <= k < |text| :: xs[k] == Value(m, text[k])
  {
    seq(|text|, k requires 0 <= k < |text| => Value(m, text[k]))
  }

  /** The character a symbol stands for. */
  function CharOf(m: Mode, x: nat): int
    requires x < m.Base()
  {
    match m
    case Numeric => x + 48
    case Alphanumeric => ALPHANUMERIC_CHARSET[x] as int
    case Byte => x
  }

  function TextOf(m: Mode, xs: seq<nat>): (text: seq<int>)
    requires Symbols(m, xs)
    ensures |text| == |xs| && forall k | 0 <= k < |xs| :: text[k] == CharOf(m, xs[k])
  {
    seq(|xs|, k requires 0 <= k < |xs| => CharOf(m, xs[k]))
  }

  lemma TextComesBack(m: Mode, text: seq<Char>)
    requires Encodable(m, text)
    ensures Symbols(m, Values(m, text)) && TextOf(m, Values(m, text)) == text
  {
    assert |ALPHANUMERIC_CHARSET| == 45;
  }

  // --- Making segments ---

  datatype Segment = Segment(mode: Mode, numChars: nat, data: seq<bool>)

  /** The segment a text makes in a mode. */
  predicate Makes(m: Mode, text: seq<Char>, s: Segment)
  {
    Encodable(m, text) && s == Segment(m, |text|, Encode(m, Values(m, text)))
  }

  /** Characters read but not appended yet are those from the last whole group on. */
  predicate Pending(m: Mode, text: seq<Char>, i: nat, bb: seq<bool>, accumData: nat, accumCount: nat)
  {
    && accumCount < m.Group() && accumCount <= i <= |text|
    && Encodable(m, text[..i])
    && accumData == Number(m, Values(m, text)[i - accumCount..i])
    && Encode(m, Values(m, text)) == bb + Encode(m, Values(m, text)[i - accumCount..])
  }

  lemma OneMoreSymbol(m: Mode, text: seq<Char>, i: nat, k: nat)
    requires k <= i < |text|
    ensures Number(m, Values(m, text)[i - k..i + 1])
         == Number(m, Values(m, text)[i - k..i]) * m.Base() + Value(m, text[i])
  {
    hide Value;
    var xs := Values(m, text)[i - k..i + 1];
    assert xs[..|xs| - 1] == Values(m, text)[i - k..i];
  }

  lemma WholeGroup(m: Mode, text: seq<Char>, i: nat, bb: seq<bool>)
    requires m.Group() <= i <= |text| && Encodable(m, text[..i])
    requires Encode(m, Values(m, text)) == bb + Encode(m, Values(m, text)[i - m.Group()..])
    ensures Number(m, Values(m, text)[i - m.Group()..i]) < Pow2(m.Width(m.Group())) && m.Width(m.Group()) <= 31
    ensures Encode(m, Values(m, text))
         == bb + Digits(Number(m, Values(m, text)[i - m.Group()..i]), m.Width(m.Group())) + Encode(m, Values(m, text)[i..])
  {
    hide Encode, Number, Digits, Value, Pow2;
    var head, tail := Values(m, text)[i - m.Group()..i], Values(m, text)[i..];
    assert Values(m, text)[i - m.Group()..] == head + tail;
    assert forall k | 0 <= k < |head| :: head[k] == Value(m, text[..i][i - m.Group() + k]);
    GroupFits(m, head);
    GroupFirst(m, head, tail);
  }

  lemma LastGroup(m: Mode, text: seq<Char>, bb: seq<bool>, k: nat)
    requires k <= |text| && k < m.Group() && Encodable(m, text)
    requires Encode(m, Values(m, text)) == bb + Encode(m, Values(m, text)[|text| - k..])
    ensures k == 0 ==> Encode(m, Values(m, text)) == bb
    ensures k > 0 ==>
      && Number(m, Values(m, text)[|text| - k..|text|]) < Pow2(m.Width(k)) && m.Width(k) <= 31
      && Encode(m, Values(m, text)) == bb + Digits(Number(m, Values(m, text)[|text| - k..|text|]), m.Width(k))
  {
    hide Number, Digits, Value, Pow2;
    var xs := Values(m, text)[|text| - k..];
    assert xs == Values(m, text)[|text| - k..|text|];
    if k > 0 {
      assert forall j | 0 <= j < |xs| :: xs[j] == Value(m, text[|text| - k + j]);
      GroupFits(m, xs);
    } else {
      assert bb + [] == bb;
    }
  }

  lemma StartPending(m: Mode, text: seq<Char>)
    ensures Pending(m, text, 0, [], 0, 0)
  {
    assert Values(m, text)[0..0] == [] && Values(m, text)[0..] == Values(m, text);
    assert [] + Encode(m, Values(m, text)) == Encode(m, Values(m, text));
  }

  lemma StillPending(m: Mode, text: seq<Char>, i: nat, bb: seq<bool>, accumData: nat, accumCount: nat)
    requires Pending(m, text, i, bb, accumData, accumCount) && i < |text| && Value(m, text[i]) < m.Base()
    requires accumCount + 1 < m.Group()
    ensures Pending(m, text, i + 1, bb, accumData * m.Base() + Value(m, text[i]), accumCount + 1)
  {
    hide Encode, Number;
    OneMoreSymbol(m, text, i, accumCount);
    assert text[..i + 1] == text[..i] + [text[i]];
  }

  lemma NoNumber(m: Mode)
    ensures Number(m, []) == 0
  {
  }

  lemma GroupDone(m: Mode, text: seq<Char>, i: nat, bb: seq<bool>, accumData: nat, accumCount: nat)
    requires Pending(m, text, i, bb, accumData, accumCount) && i < |text| && Value(m, text[i]) < m.Base()
    requires accumCount + 1 == m.Group()
    ensures var number := accumData * m.Base() + Value(m, text[i]);
      && number < Pow2(m.Width(m.Group())) && m.Width(m.Group()) <= 31
      && Pending(m, text, i + 1, bb + Digits(number, m.Width(m.Group())), 0, 0)
  {
    hide Encode, Number, Digits, Value, Pow2;
    OneMoreSymbol(m, text, i, accumCount);
    assert text[..i + 1] == text[..i] + [text[i]];
    WholeGroup(m, text, i + 1, bb);
    NoNumber(m);
    assert Values(m, text)[i + 1..i + 1] == [];
  }

  lemma AllRead(m: Mode, text: seq<Char>, bb: seq<bool>, accumData: nat, accumCount: nat)
    requires Pending(m, text, |text|, bb, accumData, accumCount)
    ensures Encodable(m, text)
    ensures accumCount == 0 ==> Encode(m, Values(m, text)) == bb
    ensures accumCount > 0 ==>
      && accumData < Pow2(m.Width(accumCount)) && m.Width(accumCount) <= 31
      && Encode(m, Values(m, text)) == bb + Digits(accumData, m.Width(accumCount))
  {
    assert text[..|text|] == text;
    LastGroup(m, text, bb, accumCount);
    hide Encode, Number;
  }

  lemma NotEncodable(m: Mode, text: seq<Char>, i: nat)
    requires i < |text| && Value(m, text[i]) >= m.Base()
    ensures !Encodable(m, text)
  {
  }

  /** makeNumeric. Anything but digits is refused. */
  method MakeNumeric(text: seq<Char>) returns (ok: bool, s: Segment)
    ensures ok <==> Encodable(Numeric, text)
    ensures ok ==> Makes(Numeric, text, s)
  {
    hide Pending, Encodable, Digits, Encode, Value, Number;
    var bb: seq<bool> := [];
    var accumData: nat, accumCount: nat, charCount: nat := 0, 0, 0;
    s := Segment(Numeric, 0, []);
    StartPending(Numeric, text);
    for i := 0 to |text|
      invariant charCount == i && 0 <= accumData && 0 <= accumCount < 3
      invariant Pending(Numeric, text, i, bb, accumData, accumCount)
    {
      var c: int := text[i];
      DigitValue(text[i]);
      if c < 48 || c > 57 {
        NotEncodable(Numeric, text, i);
        return false, s;
      }
      if accumCount + 1 == 3 {
        GroupDone(Numeric, text, i, bb, accumData, accumCount);
      } else {
        StillPending(Numeric, text, i, bb, accumData, accumCount);
      }
      accumData := accumData * 10 + (c - 48);
      accumCount := accumCount + 1;
      if accumCount == 3 {
        ok, bb := AppendBits(bb, accumData, 10);
        accumData := 0;
        accumCount := 0;
      }
      charCount := charCount + 1;
    }
    AllRead(Numeric, text, bb, accumData, accumCount);
    if accumCount > 0 {
      ok, bb := AppendBits(bb, accumData, accumCount * 3 + 1);
    }
    return true, Segment(Numeric, charCount, bb);
  }

  lemma DigitValue(c: Char)
    ensures 48 <= c <= 57 <==> Value(Numeric, c) < 10
    ensures c >= 48 ==> Value(Numeric, c) == c - 48
  {
  }

  /** makeAlphanumeric. Characters outside the set of 45 are refused. */
  method MakeAlphanumeric(text: seq<Char>) returns (ok: bool, s: Segment)
    ensures ok <==> Encodable(Alphanumeric, text)
    ensures ok ==> Makes(Alphanumeric, text, s)
  {
    hide Pending, Encodable, Digits, Encode, Value, Number;
    var bb: seq<bool> := [];
    var accumData: nat, accumCount: nat, charCount: nat := 0, 0, 0;
    s := Segment(Alphanumeric, 0, []);
    StartPending(Alphanumeric, text);
    for i := 0 to |text|
      invariant charCount == i && 0 <= accumData && 0 <= accumCount < 2
      invariant Pending(Alphanumeric, text, i, bb, accumData, accumCount)
    {
      var temp := Find(text[i], ALPHANUMERIC_CHARSET, 0);
      SetValue(text[i]);
      if temp == |ALPHANUMERIC_CHARSET| {
        NotEncodable(Alphanumeric, text, i);
        return false, s;
      }
      if accumCount + 1 == 2 {
        GroupDone(Alphanumeric, text, i, bb, accumData, accumCount);
      } else {
        StillPending(Alphanumeric, text, i, bb, accumData, accumCount);
      }
      accumData := accumData * 45 + temp;
      accumCount := accumCount + 1;
      if accumCount == 2 {
        ok, bb := AppendBits(bb, accumData, 11);
        accumData := 0;
        accumCount := 0;
      }
      charCount := charCount + 1;
    }
    AllRead(Alphanumeric, text, bb, accumData, accumCount);
    if accumCount > 0 {
      ok, bb := AppendBits(bb, accumData, 6);
    }
    return true, Segment(Alphanumeric, charCount, bb);
  }

  lemma SetValue(c: Char)
    ensures Value(Alphanumeric, c) == Find(c, ALPHANUMERIC_CHARSET, 0)
    ensures |ALPHANUMERIC_CHARSET| == 45
  {
  }

  /** makeBytes. More of them than an int counts are refused. */
  method MakeBytes(data: seq<Char>) returns (ok: bool, s: Segment)
    ensures ok <==> |data| <= INT_MAX
    ensures ok ==> Makes(Byte, data, s)
  {
    hide Pending, Encodable, Digits, Encode, Number;
    s := Segment(Byte, 0, []);
    if |data| > INT_MAX {
      return false, s;
    }
    var bb: seq<bool> := [];
    StartPending(Byte, data);
    for i := 0 to |data|
      invariant Pending(Byte, data, i, bb, 0, 0)
    {
      GroupDone(Byte, data, i, bb, 0, 0);
      ok, bb := AppendBits(bb, data[i], 8);
    }
    AllRead(Byte, data, bb, 0, 0);
    return true, Segment(Byte, |data|, bb);
  }

  /** The mode a text gets: the one with the fewest bits that can hold it. */
  function ModeOf(text: seq<Char>): Mode
  {
    if Encodable(Numeric, text) then Numeric else if Encodable(Alphanumeric, text) then Alphanumeric else Byte
  }

  /** makeSegments, with isNumeric and isAlphanumeric for the choice. */
  method MakeSegments(text: seq<Char>) returns (ok: bool, segments: seq<Segment>)
    ensures ok <==> ModeOf(text) != Byte || |text| <= INT_MAX
    ensures ok ==> segments == if text == [] then [] else [Segment(ModeOf(text), |text|, Encode(ModeOf(text), Values(ModeOf(text), text)))]
  {
    hide Encodable, Encode;
    if text == [] {
      NothingIsNumeric();
      return true, [];
    }
    var s: Segment;
    ok, s := MakeNumeric(text);
    if !ok {
      ok, s := MakeAlphanumeric(text);
      if !ok {
        ok, s := MakeBytes(text);
      }
    }
    segments := [s];
  }

  lemma NothingIsNumeric()
    ensures Encodable(Numeric, [])
  {
  }
}
