/** The coder against the standard's own tables and examples: sections 7.4.1 to 7.4.10 of ISO/IEC 18004:2015. */
module QrStandard {
  import opened QrBits
  import opened QrData
  import opened QrSegments

  /** Bits as the standard prints them. */
  function Printed(s: string): (bits: seq<bool>)
    ensures |bits| == |s|
  {
    seq(|s|, i requires 0 <= i < |s| => s[i] == '1')
  }

  // --- Tables ---

  /** The mode indicators. */
  lemma ModeIndicators(s: Segment, version: int)
    ensures Header(s, version)[..4]
         == Printed(match s.mode case Numeric => "0001" case Alphanumeric => "0010" case Byte => "0100")
  {
    assert Header(s, version)[..4] == Digits(s.mode.Bits(), 4);
    FourDigits();
    hide Digits;
  }

  lemma FourDigits()
    ensures Digits(1, 4) == Printed("0001") && Digits(2, 4) == Printed("0010") && Digits(4, 4) == Printed("0100")
  {
  }

  /** How long the character counts are in the three ranges of versions. */
  lemma CountLengths(s: Segment, version: int)
    requires 1 <= version <= 40
    ensures |Header(s, version)| - 4
         == match s.mode
            case Numeric => (if version <= 9 then 10 else if version <= 26 then 12 else 14)
            case Alphanumeric => (if version <= 9 then 9 else if version <= 26 then 11 else 13)
            case Byte => (if version <= 9 then 8 else 16)
  {
    hide Digits;
  }

  /** Three digits take ten bits, two seven and one four; two of the 45 characters eleven bits and one six; a byte eight. */
  lemma GroupLengths(m: Mode, count: nat)
    ensures EncodedLength(m, count)
         == match m
            case Numeric => 10 * (count / 3) + (if count % 3 == 2 then 7 else if count % 3 == 1 then 4 else 0)
            case Alphanumeric => 11 * (count / 2) + 6 * (count % 2)
            case Byte => 8 * count
    decreases count
  {
    if count >= m.Group() {
      GroupLengths(m, count - m.Group());
      match m
      case Numeric => assert count == count - 3 + 3 && (count - 3) / 3 == count / 3 - 1 && (count - 3) % 3 == count % 3;
      case Alphanumeric => assert (count - 2) / 2 == count / 2 - 1 && (count - 2) % 2 == count % 2;
      case Byte =>
    }
  }

  /** The 45 characters in the standard's order: digits, letters, a space and eight signs. */
  function Character(i: nat): int
    requires i < 45
  {
    if i < 10 then 48 + i else if i < 36 then 65 + i - 10 else [32, 36, 37, 42, 43, 45, 46, 47, 58][i - 36]
  }

  lemma DigitsFirst()
    ensures forall i | 0 <= i < 10 :: ALPHANUMERIC_CHARSET[i] as int == Character(i)
  {
  }

  lemma LettersNext()
    ensures forall i | 10 <= i < 36 :: ALPHANUMERIC_CHARSET[i] as int == Character(i)
  {
  }

  lemma SignsLast()
    ensures forall i | 36 <= i < 45 :: ALPHANUMERIC_CHARSET[i] as int == Character(i)
  {
  }

  lemma CharactersDiffer(i: nat, j: nat)
    requires i < j < 45
    ensures Character(i) != Character(j)
  {
  }

  /** Each character's number is its place in that order, and no other character has one. */
  lemma CharacterNumbers(c: Char, i: nat)
    requires i < 45
    ensures |ALPHANUMERIC_CHARSET| == 45
    ensures Value(Alphanumeric, c) == i <==> c == Character(i)
    ensures Value(Numeric, c) == i && i < 10 <==> c == 48 + i && i < 10
  {
    DigitsFirst();
    LettersNext();
    SignsLast();
    hide Character;
    var k := Value(Alphanumeric, c);
    if k < i {
      CharactersDiffer(k, i);
    } else if i < k < 45 {
      CharactersDiffer(i, k);
    }
  }

  // --- Examples ---

  function Coded(text: seq<Char>, version: int): seq<bool>
  {
    var m := ModeOf(text);
    Content([Segment(m, |text|, Encode(m, Values(m, text)))], version)
  }

  lemma OneSegment(s: Segment, version: int)
    ensures Content([s], version) == Digits(s.mode.Bits(), 4) + Digits(s.numChars, s.mode.CountBits(version)) + s.data
  {
    hide Digits;
    assert [s][..0] == [];
    assert Content([], version) == [];
  }

  lemma Bits8()
    ensures Digits(8, 10) == Printed("0000001000")
  {
  }

  lemma Bits12()
    ensures Digits(12, 10) == Printed("0000001100")
  {
  }

  lemma Bits345()
    ensures Digits(345, 10) == Printed("0101011001")
  {
  }

  lemma Bits67()
    ensures Digits(67, 7) == Printed("1000011")
  {
  }

  lemma NumericGroups()
    ensures Number(Numeric, [0, 1, 2]) == 12 && Number(Numeric, [3, 4, 5]) == 345 && Number(Numeric, [6, 7]) == 67
  {
    NumberOfFew(Numeric, [0, 1, 2]);
    NumberOfFew(Numeric, [3, 4, 5]);
    NumberOfFew(Numeric, [6, 7]);
  }

  lemma NumericText(text: seq<Char>)
    requires text == [48, 49, 50, 51, 52, 53, 54, 55]
    ensures ModeOf(text) == Numeric && Values(Numeric, text) == [0, 1, 2] + ([3, 4, 5] + [6, 7])
  {
  }

  lemma NumericCode()
    ensures Encode(Numeric, [0, 1, 2] + ([3, 4, 5] + [6, 7])) == Digits(12, 10) + (Digits(345, 10) + Digits(67, 7))
  {
    NumericGroups();
    hide Digits, Number;
    GroupFirst(Numeric, [0, 1, 2], [3, 4, 5] + [6, 7]);
    GroupFirst(Numeric, [3, 4, 5], [6, 7]);
    assert Encode(Numeric, [6, 7]) == Digits(67, 7);
  }

  /** 01234567 in a version 1 code. */
  lemma NumericExample()
    ensures Coded([48, 49, 50, 51, 52, 53, 54, 55], 1)
         == Printed("0001") + Printed("0000001000") + Printed("0000001100") + Printed("0101011001") + Printed("1000011")
  {
    hide Digits, Number, Values, ModeOf, Printed, Encode, Content;
    var text: seq<Char> := [48, 49, 50, 51, 52, 53, 54, 55];
    NumericText(text);
    NumericCode();
    FourDigits();
    Bits8();
    Bits12();
    Bits345();
    Bits67();
    OneSegment(Segment(Numeric, 8, Encode(Numeric, Values(Numeric, text))), 1);
    Joined(Digits(1, 4), Digits(8, 10), Digits(12, 10), Digits(345, 10), Digits(67, 7));
  }

  lemma Joined(a: seq<bool>, b: seq<bool>, c: seq<bool>, d: seq<bool>, e: seq<bool>)
    ensures a + b + (c + (d + e)) == a + b + c + d + e
  {
  }

  lemma Bits5()
    ensures Digits(5, 9) == Printed("000000101")
  {
  }

  lemma Bits462()
    ensures Digits(462, 11) == Printed("00111001110")
  {
  }

  lemma Bits1849()
    ensures Digits(1849, 11) == Printed("11100111001")
  {
  }

  lemma Bits2()
    ensures Digits(2, 6) == Printed("000010")
  {
  }

  lemma AlphanumericGroups()
    ensures Number(Alphanumeric, [10, 12]) == 462 && Number(Alphanumeric, [41, 4]) == 1849 && Number(Alphanumeric, [2]) == 2
  {
    NumberOfFew(Alphanumeric, [10, 12]);
    NumberOfFew(Alphanumeric, [41, 4]);
    NumberOfFew(Alphanumeric, [2]);
  }

  lemma AlphanumericValues()
    ensures Values(Alphanumeric, [65, 67, 45, 52, 50]) == [10, 12] + ([41, 4] + [2])
  {
    CharacterNumbers(65, 10);
    CharacterNumbers(67, 12);
    CharacterNumbers(45, 41);
    CharacterNumbers(52, 4);
    CharacterNumbers(50, 2);
    hide Value;
  }

  /** AC-42 in a version 1 code. */
  lemma AlphanumericExample()
    ensures Coded([65, 67, 45, 52, 50], 1)
         == Printed("0010") + Printed("000000101") + Printed("00111001110") + Printed("11100111001") + Printed("000010")
  {
    var text: seq<Char> := [65, 67, 45, 52, 50];
    AlphanumericMode(text);
    AlphanumericValues();
    FourDigits();
    Bits5();
    Bits462();
    Bits1849();
    Bits2();
    AlphanumericGroups();
    hide Digits, Number, Values, ModeOf, Printed;
    GroupFirst(Alphanumeric, [10, 12], [41, 4] + [2]);
    GroupFirst(Alphanumeric, [41, 4], [2]);
    assert Encode(Alphanumeric, [2]) == Digits(2, 6);
    OneSegment(Segment(Alphanumeric, 5, Encode(Alphanumeric, Values(Alphanumeric, text))), 1);
    hide Encode, Content;
    Joined(Digits(2, 4), Digits(5, 9), Digits(462, 11), Digits(1849, 11), Digits(2, 6));
  }

  lemma AlphanumericMode(text: seq<Char>)
    requires text == [65, 67, 45, 52, 50]
    ensures ModeOf(text) == Alphanumeric
  {
    assert Value(Numeric, text[0]) == 17;
    AlphanumericValues();
    assert forall k | 0 <= k < 5 :: Values(Alphanumeric, text)[k] < 45;
    hide Value;
  }

  /** Bytes go out with their highest bit first. */
  lemma HighestBitFirst()
    ensures Bits([0x80, 0x01]) == Printed("10000000") + Printed("00000001")
  {
    assert [0x80, 0x01][..1] == [0x80] && [0x80][..0] == [];
    assert Bits([0x80]) == BitsOf(0x80);
  }

  /** The padding bytes in their order. */
  lemma PaddingExample()
    ensures Pads(3) == Printed("11101100") + Printed("00010001") + Printed("11101100")
  {
    Bits236();
    Bits17();
    hide Digits, Printed;
    assert Pads(0) == [];
    assert Pads(1) == Digits(0xEC, 8);
    assert Pads(2) == Digits(0xEC, 8) + Digits(0x11, 8);
  }

  lemma Bits236()
    ensures Digits(0xEC, 8) == Printed("11101100")
  {
  }

  lemma Bits17()
    ensures Digits(0x11, 8) == Printed("00010001")
  {
  }
}
