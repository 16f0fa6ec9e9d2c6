/** The protocol buffers of mosh's instructions and user messages: what is written is read back. */
module MoshWire {
  import opened MoshTypes
  import S = MoshSender

  const INT_MAX: nat := 0x7fff_ffff
  const PROTOCOL_VERSION: nat := 2

  // --- Varints ---

  function Pow128(k: nat): nat { if k == 0 then 1 else 128 * Pow128(k - 1) }

  function Varint(v: nat): (b: Bytes)
    ensures b != []
  {
    if v >= 128 then [v % 128 + 128] + Varint(v / 128) else [v]
  }

  /** Appends the number to out. */
  method PutVarint(out: Bytes, value: nat) returns (r: Bytes)
    ensures r == out + Varint(value)
  {
    var v := value;
    r := out;
    while v >= 128
      invariant r + Varint(v) == out + Varint(value)
      decreases v
    {
      assert r + ([v % 128 + 128] + Varint(v / 128)) == (r + [v % 128 + 128]) + Varint(v / 128);
      r := r + [v % 128 + 128];
      v := v / 128;
    }
    r := r + [v];
  }

  /** A number read, and where reading goes on. */
  datatype Read<T> = Damaged | Got(value: T, pos: nat)

  /** Reading on at the k-th byte of a varint, ten at most; bits past the 64th are lost. */
  function VarintFrom(data: Bytes, pos: nat, k: nat, value: nat): Read<nat>
    decreases 10 - k
  {
    if k >= 10 || pos >= |data| then Damaged
    else
      var v := value + data[pos] % 128 * Pow128(k) % U64;
      if data[pos] < 128 then Got(v, pos + 1) else VarintFrom(data, pos + 1, k + 1, v)
  }

  /** What a varint's bytes come to as far as they go. */
  function PartOfVarint(data: Bytes, pos: nat, k: nat, value: nat): nat
    decreases 10 - k
  {
    if k >= 10 || pos >= |data| then value
    else
      var v := value + data[pos] % 128 * Pow128(k) % U64;
      if data[pos] < 128 then v else PartOfVarint(data, pos + 1, k + 1, v)
  }

  lemma Pow128Ten()
    ensures Pow128(9) == 0x8000_0000_0000_0000
  {
    assert Pow128(3) == 128 * (128 * (128 * Pow128(0)));
    assert Pow128(6) == 128 * (128 * (128 * Pow128(3)));
    assert Pow128(9) == 128 * (128 * (128 * Pow128(6)));
  }

  lemma {:induction false} Pow128Grows(j: nat, k: nat)
    requires j <= k
    ensures 1 <= Pow128(j) <= Pow128(k)
    decreases k
  {
    if j < k {
      Pow128Grows(j, k - 1);
    } else if j > 0 {
      Pow128Grows(j - 1, j - 1);
    }
  }

  lemma SplitNumber(v: nat, k: nat)
    requires v >= 128 && v * Pow128(k) < U64
    ensures v * Pow128(k) == v / 128 * Pow128(k + 1) + v % 128 * Pow128(k)
    ensures k < 9 && 0 <= v % 128 * Pow128(k) < U64 && v / 128 * Pow128(k + 1) < U64
  {
    var low, high, w := v % 128, v / 128, Pow128(k);
    Pow128Grows(0, k);
    assert v == 128 * high + low;
    Distribute(high, low, w);
    Multiply(high, 128 * w);
    NotNegative(low, w);
    if k >= 9 {
      Pow128Grows(9, k);
      Pow128Ten();
      assert false;
    }
  }

  lemma Distribute(high: nat, low: nat, w: nat)
    ensures (128 * high + low) * w == high * (128 * w) + low * w
  {
  }

  lemma Multiply(a: nat, b: nat)
    requires a >= 1
    ensures a * b >= b
  {
  }

  lemma NotNegative(a: nat, b: nat)
    ensures a * b >= 0
  {
  }

  lemma VarintByte(before: Bytes, byte: Byte, rest: Bytes, k: nat, value: nat)
    requires k < 10 && byte % 128 * Pow128(k) < U64
    ensures var v := value + byte % 128 * Pow128(k);
      VarintFrom(before + [byte] + rest, |before|, k, value)
      == if byte < 128 then Got(v, |before| + 1) else VarintFrom(before + [byte] + rest, |before| + 1, k + 1, v)
  {
    hide Pow128;
    NotNegative(byte % 128, Pow128(k));
    assert (before + [byte] + rest)[|before|] == byte;
  }

  lemma VarintGoesOn(before: Bytes, v: nat, tail: Bytes)
    requires v >= 128
    ensures before + Varint(v) + tail == before + [v % 128 + 128] + (Varint(v / 128) + tail)
    ensures before + Varint(v) == before + [v % 128 + 128] + Varint(v / 128)
  {
  }

  lemma {:induction false} VarintReadsOn(before: Bytes, v: nat, tail: Bytes, k: nat, value: nat)
    requires k < 10 && v * Pow128(k) < U64
    ensures VarintFrom(before + Varint(v) + tail, |before|, k, value)
         == Got(value + v * Pow128(k), |before + Varint(v)|)
    decreases v
  {
    hide Pow128, VarintFrom;
    if v >= 128 {
      var first, rest := [v % 128 + 128], Varint(v / 128);
      SplitNumber(v, k);
      VarintGoesOn(before, v, tail);
      hide Varint;
      VarintByte(before, v % 128 + 128, rest + tail, k, value);
      VarintReadsOn(before + first, v / 128, tail, k + 1, value + v % 128 * Pow128(k));
      Regroup(before + first, rest, tail, []);
    } else {
      VarintByte(before, v, tail, k, value);
    }
  }

  /** Every 64-bit number is read back. */
  lemma VarintRoundTrip(before: Bytes, v: nat, tail: Bytes)
    requires v < U64
    ensures VarintFrom(before + Varint(v) + tail, |before|, 0, 0) == Got(v, |before + Varint(v)|)
  {
    assert v * Pow128(0) == v;
    VarintReadsOn(before, v, tail, 0, 0);
    hide VarintFrom, Varint;
  }

  // --- Fields ---

  /** A number, a string of bytes or four or eight bytes skipped, with its field number. */
  datatype Field = Num(field: nat, value: nat) | Data(field: nat, bytes: Bytes) | Fixed(field: nat, size: nat)

  function FieldType(f: Field): nat {
    match f case Num(_, _) => 0 case Data(_, _) => 2 case Fixed(_, n) => if n == 8 then 1 else 5
  }

  predicate Codable(f: Field) {
    !f.Fixed? && 1 <= f.field <= INT_MAX && (if f.Num? then f.value < U64 else |f.bytes| < U64)
  }

  predicate AllCodable(fs: seq<Field>) { forall i :: 0 <= i < |fs| ==> Codable(fs[i]) }

  function Body(f: Field): Bytes
    requires !f.Fixed?
  {
    if f.Num? then Varint(f.value) else Varint(|f.bytes|) + f.bytes
  }

  function EncodeField(f: Field): Bytes
    requires !f.Fixed?
  {
    Varint(8 * f.field + FieldType(f)) + Body(f)
  }

  function EncodeFields(fs: seq<Field>): Bytes
    requires AllCodable(fs)
  {
    if fs == [] then [] else EncodeField(fs[0]) + EncodeFields(fs[1..])
  }

  function ReadBytes(data: Bytes, pos: nat): Read<Bytes> {
    var n := VarintFrom(data, pos, 0, 0);
    if n.Damaged? || n.pos > |data| || n.value > |data| - n.pos then Damaged
    else Got(data[n.pos..n.pos + n.value], n.pos + n.value)
  }

  function ReadKey(data: Bytes, pos: nat): Read<nat> {
    var key := VarintFrom(data, pos, 0, 0);
    if key.Got? && 1 <= key.value / 8 <= INT_MAX then key else Damaged
  }

  /** The field whose key was read, up to pos. */
  function ReadBody(data: Bytes, key: nat, pos: nat): Read<Field> {
    if key % 8 == 0 then
      var n := VarintFrom(data, pos, 0, 0);
      if n.Got? then Got(Num(key / 8, n.value), n.pos) else Damaged
    else if key % 8 == 2 then
      var b := ReadBytes(data, pos);
      if b.Got? then Got(Data(key / 8, b.value), b.pos) else Damaged
    else if key % 8 == 1 && pos + 8 <= |data| then Got(Fixed(key / 8, 8), pos + 8)
    else if key % 8 == 5 && pos + 4 <= |data| then Got(Fixed(key / 8, 4), pos + 4)
    else Damaged
  }

  lemma {:induction false} VarintAdvances(data: Bytes, pos: nat, k: nat, value: nat)
    ensures var n := VarintFrom(data, pos, k, value); n.Got? ==> pos < n.pos <= |data|
    decreases 10 - k
  {
    if k < 10 && pos < |data| && data[pos] >= 128 {
      VarintAdvances(data, pos + 1, k + 1, value + data[pos] % 128 * Pow128(k) % U64);
    }
  }

  lemma BodyAdvances(data: Bytes, key: nat, pos: nat)
    requires pos <= |data|
    ensures var f := ReadBody(data, key, pos); f.Got? ==> pos <= f.pos <= |data|
  {
    VarintAdvances(data, pos, 0, 0);
  }

  /** All fields from pos on, or None when the message is damaged. */
  function Parse(data: Bytes, pos: nat): Option<seq<Field>>
    decreases |data| - pos
  {
    if pos >= |data| then Some([])
    else
      var key := ReadKey(data, pos);
      if key.Damaged? then None
      else
        VarintAdvances(data, pos, 0, 0);
        var f := ReadBody(data, key.value, key.pos);
        BodyAdvances(data, key.value, key.pos);
        if f.Damaged? then None
        else
          var rest := Parse(data, f.pos);
          if rest.Some? then Some([f.value] + rest.value) else None
  }

  lemma Regroup(a: Bytes, b: Bytes, c: Bytes, d: Bytes)
    ensures a + (b + c) + d == a + b + (c + d) && a + (b + c) + d == (a + b) + c + d && a + (b + c) == a + b + c
  {
  }

  lemma BytesRoundTrip(before: Bytes, bytes: Bytes, tail: Bytes)
    requires |bytes| < U64
    ensures ReadBytes(before + (Varint(|bytes|) + bytes) + tail, |before|)
         == Got(bytes, |before + (Varint(|bytes|) + bytes)|)
  {
    hide VarintFrom, Varint;
    var data, start := before + (Varint(|bytes|) + bytes) + tail, |before + Varint(|bytes|)|;
    Regroup(before, Varint(|bytes|), bytes, tail);
    VarintRoundTrip(before, |bytes|, bytes + tail);
    assert data[start..start + |bytes|] == bytes;
  }

  lemma BodyRoundTrip(before: Bytes, f: Field, tail: Bytes)
    requires Codable(f)
    ensures ReadBody(before + Body(f) + tail, 8 * f.field + FieldType(f), |before|) == Got(f, |before + Body(f)|)
  {
    hide VarintFrom, Varint, ReadBytes;
    if f.Num? {
      VarintRoundTrip(before, f.value, tail);
    } else {
      BytesRoundTrip(before, f.bytes, tail);
    }
  }

  lemma ParseField(before: Bytes, f: Field, tail: Bytes)
    requires Codable(f)
    ensures var data := before + EncodeField(f) + tail;
      && ReadKey(data, |before|).Got?
      && ReadBody(data, ReadKey(data, |before|).value, ReadKey(data, |before|).pos) == Got(f, |before + EncodeField(f)|)
  {
    var key := 8 * f.field + FieldType(f);
    hide VarintFrom, Varint, ReadBody, Body;
    Regroup(before, Varint(key), Body(f), tail);
    VarintRoundTrip(before, key, Body(f) + tail);
    BodyRoundTrip(before + Varint(key), f, tail);
  }

  lemma ParsePast(data: Bytes, pos: nat, f: Field, next: nat, rest: seq<Field>)
    requires pos < |data| && ReadKey(data, pos).Got?
    requires ReadBody(data, ReadKey(data, pos).value, ReadKey(data, pos).pos) == Got(f, next)
    requires Parse(data, next) == Some(rest)
    ensures Parse(data, pos) == Some([f] + rest)
  {
    hide VarintFrom, ReadBody;
    VarintAdvances(data, pos, 0, 0);
    BodyAdvances(data, ReadKey(data, pos).value, ReadKey(data, pos).pos);
  }

  /** A message of fields is read back, field by field. */
  lemma {:induction false} FieldsRoundTrip(before: Bytes, fs: seq<Field>)
    requires AllCodable(fs)
    ensures Parse(before + EncodeFields(fs), |before|) == Some(fs)
    decreases |fs|
  {
    hide ReadKey, ReadBody, EncodeField, EncodeFields, Parse;
    if fs == [] {
      NothingLeft(before);
    } else {
      FirstField(fs);
      var f, code, tail := fs[0], EncodeField(fs[0]), EncodeFields(fs[1..]);
      Regroup(before, code, tail, []);
      ParseField(before, f, tail);
      CodeIsSome(f);
      FieldsRoundTrip(before + code, fs[1..]);
      ParsePast(before + code + tail, |before|, f, |before + code|, fs[1..]);
      assert [f] + fs[1..] == fs;
    }
  }

  lemma NothingLeft(before: Bytes)
    ensures Parse(before + EncodeFields([]), |before|) == Some([])
  {
  }

  lemma FirstField(fs: seq<Field>)
    requires AllCodable(fs) && fs != []
    ensures EncodeFields(fs) == EncodeField(fs[0]) + EncodeFields(fs[1..])
  {
    hide EncodeField;
  }

  lemma CodeIsSome(f: Field)
    requires !f.Fixed?
    ensures |EncodeField(f)| > 0
  {
  }

  lemma FieldsReadBack(fs: seq<Field>)
    requires AllCodable(fs)
    ensures Parse(EncodeFields(fs), 0) == Some(fs)
  {
    FieldsRoundTrip([], fs);
    assert [] + EncodeFields(fs) == EncodeFields(fs);
  }

  // --- The reader in place ---

  class ProtoReader {
    const data: Bytes
    var pos: nat
    var good: bool

    constructor (data: Bytes)
      ensures this.data == data && pos == 0 && good
    {
      this.data, pos, good := data, 0, true;
    }

    /** The next field's number and wire type; none at the end or on damaged input. */
    method Next() returns (more: bool, field: nat, wireType: nat)
      requires pos <= |data|
      modifies this
      ensures pos <= |data|
      ensures more <==> old(good) && old(pos) < |data| && ReadKey(data, old(pos)).Got?
      ensures more ==> good && wireType < 8 && ReadKey(data, old(pos)) == Got(8 * field + wireType, pos)
      ensures !more ==> (good <==> old(good) && old(pos) >= |data|)
    {
      more, field, wireType := false, 0, 0;
      if !good || pos >= |data| {
        return;
      }
      var got, key := Number();
      if !got || key / 8 == 0 || key / 8 > INT_MAX {
        good := false;
        return;
      }
      more, field, wireType := true, key / 8, key % 8;
    }

    method Number() returns (got: bool, value: nat)
      requires good && pos <= |data|
      modifies this
      ensures pos <= |data|
      ensures got <==> VarintFrom(data, old(pos), 0, 0).Got?
      ensures got ==> good && VarintFrom(data, old(pos), 0, 0) == Got(value, pos)
      ensures !got ==> !good
      ensures value == PartOfVarint(data, old(pos), 0, 0)
    {
      value := 0;
      var k := 0;
      while k < 10 && pos < |data|
        invariant k <= 10 && good && pos <= |data|
        invariant VarintFrom(data, pos, k, value) == VarintFrom(data, old(pos), 0, 0)
        invariant PartOfVarint(data, pos, k, value) == PartOfVarint(data, old(pos), 0, 0)
        decreases 10 - k
      {
        var byte := data[pos];
        pos := pos + 1;
        value := value + byte % 128 * Pow128(k) % U64;
        if byte < 128 {
          return true, value;
        }
        k := k + 1;
      }
      good := false;
      got := false;
    }

    method Text() returns (got: bool, value: Bytes)
      requires good && pos <= |data|
      modifies this
      ensures got <==> ReadBytes(data, old(pos)).Got?
      ensures got ==> good && ReadBytes(data, old(pos)) == Got(value, pos)
      ensures !got ==> !good
    {
      value := [];
      VarintAdvances(data, pos, 0, 0);
      var length;
      got, length := Number();
      if !got || length > |data| - pos {
        good := false;
        return false, [];
      }
      value := data[pos..pos + length];
      pos := pos + length;
    }

    method Skip(wireType: nat, ghost field: nat)
      requires good && pos <= |data| && wireType < 8
      modifies this
      ensures good <==> ReadBody(data, 8 * field + wireType, old(pos)).Got?
      ensures good ==> ReadBody(data, 8 * field + wireType, old(pos)).pos == pos
    {
      if wireType == 0 {
        var _, _ := Number();
      } else if wireType == 2 {
        var _, _ := Text();
      } else if wireType == 1 && |data| - pos >= 8 {
        pos := pos + 8;
      } else if wireType == 5 && |data| - pos >= 4 {
        pos := pos + 4;
      } else {
        good := false;
      }
    }
  }

  // --- Instructions ---

  datatype Message = Message(version: nat, oldNum: nat, newNum: nat, ackNum: nat, throwawayNum: nat, diff: Bytes)

  function TakeField(m: Message, f: Field): Message {
    match f
    case Num(1, v) => m.(version := v)
    case Num(2, v) => m.(oldNum := v)
    case Num(3, v) => m.(newNum := v)
    case Num(4, v) => m.(ackNum := v)
    case Num(5, v) => m.(throwawayNum := v)
    case Data(6, b) => m.(diff := b)
    case _ => m
  }

  function TakeFields(m: Message, fs: seq<Field>): Message
    decreases |fs|
  {
    if fs == [] then m else TakeFields(TakeField(m, fs[0]), fs[1..])
  }

  function TakeAll(m: Message, fs: Option<seq<Field>>): Option<Message> {
    if fs.None? then None else Some(TakeFields(m, fs.value))
  }

  const NO_MESSAGE := Message(0, 0, 0, 0, 0, [])

  function ReadInstruction(data: Bytes): Option<Message> { TakeAll(NO_MESSAGE, Parse(data, 0)) }

  /** An instruction, with any bytes after it that nobody reads. */
  function InstructionFields(m: Message, chaff: Bytes): seq<Field> {
    [Num(1, m.version), Num(2, m.oldNum), Num(3, m.newNum), Num(4, m.ackNum), Num(5, m.throwawayNum), Data(6, m.diff),
     Data(7, chaff)]
  }

  /** What becomes of a payload: damaged it is ignored, another version of the protocol ends the session. */
  datatype Verdict = Ignored | WrongVersion(version: nat) | Taken(message: Message)

  function Judge(m: Option<Message>): Verdict {
    if m.None? then Ignored
    else if m.value.version != PROTOCOL_VERSION then WrongVersion(m.value.version)
    else Taken(m.value)
  }

  predicate Sendable(m: Message) {
    m.version < U64 && m.oldNum < U64 && m.newNum < U64 && m.ackNum < U64 && m.throwawayNum < U64 && |m.diff| < U64
  }

  lemma TakeOne(m: Message, f: Field, rest: seq<Field>)
    ensures TakeFields(m, [f] + rest) == TakeFields(TakeField(m, f), rest)
  {
    assert ([f] + rest)[1..] == rest;
  }

  lemma TakeThree(m: Message, a: Field, b: Field, c: Field, rest: seq<Field>)
    ensures TakeFields(m, [a, b, c] + rest) == TakeFields(TakeField(TakeField(TakeField(m, a), b), c), rest)
  {
    hide TakeFields, TakeField;
    assert [a, b, c] + rest == [a] + ([b] + ([c] + rest));
    TakeOne(m, a, [b] + ([c] + rest));
    TakeOne(TakeField(m, a), b, [c] + rest);
    TakeOne(TakeField(TakeField(m, a), b), c, rest);
  }

  lemma TakesBack(m: Message, chaff: Bytes)
    ensures TakeFields(NO_MESSAGE, InstructionFields(m, chaff)) == m
  {
    var three := Message(m.version, m.oldNum, m.newNum, 0, 0, []);
    var last := [Data(7, chaff)] + [];
    hide TakeFields;
    TakeThree(NO_MESSAGE, Num(1, m.version), Num(2, m.oldNum), Num(3, m.newNum),
              [Num(4, m.ackNum), Num(5, m.throwawayNum), Data(6, m.diff)] + last);
    TakeThree(three, Num(4, m.ackNum), Num(5, m.throwawayNum), Data(6, m.diff), last);
    TakeOne(m, Data(7, chaff), []);
    TakeNone(m);
    assert InstructionFields(m, chaff) == [Num(1, m.version), Num(2, m.oldNum), Num(3, m.newNum)]
      + ([Num(4, m.ackNum), Num(5, m.throwawayNum), Data(6, m.diff)] + last);
  }

  /** The five numbers and the diff are read back, whatever chaff follows. */
  lemma InstructionRoundTrip(m: Message, chaff: Bytes)
    requires Sendable(m) && |chaff| < U64
    ensures AllCodable(InstructionFields(m, chaff))
    ensures ReadInstruction(EncodeFields(InstructionFields(m, chaff))) == Some(m)
    ensures m.version == PROTOCOL_VERSION ==> Judge(ReadInstruction(EncodeFields(InstructionFields(m, chaff)))) == Taken(m)
  {
    FieldsReadBack(InstructionFields(m, chaff));
    TakesBack(m, chaff);
    hide EncodeFields, Parse, TakeFields, InstructionFields;
  }

  lemma TakeNone(m: Message)
    ensures TakeFields(m, []) == m
  {
  }

  lemma ParseEnd(m: Message, data: Bytes, pos: nat)
    requires pos >= |data|
    ensures TakeAll(m, Parse(data, pos)) == Some(m)
  {
  }

  lemma ParseStep(m: Message, data: Bytes, pos: nat)
    requires pos < |data|
    ensures var key := ReadKey(data, pos);
      if key.Damaged? || ReadBody(data, key.value, key.pos).Damaged? then TakeAll(m, Parse(data, pos)) == None
      else
        var f := ReadBody(data, key.value, key.pos);
        pos < key.pos <= f.pos <= |data| && TakeAll(m, Parse(data, pos)) == TakeAll(TakeField(m, f.value), Parse(data, f.pos))
  {
    hide VarintFrom, ReadBody;
    VarintAdvances(data, pos, 0, 0);
    var key := ReadKey(data, pos);
    if key.Got? {
      BodyAdvances(data, key.value, key.pos);
      var f := ReadBody(data, key.value, key.pos);
      if f.Got? {
        var rest := Parse(data, f.pos);
        if rest.Some? {
          TakeOne(m, f.value, rest.value);
        }
      }
    }
  }

  method ReceiveInstruction(data: Bytes) returns (v: Verdict)
    ensures v == Judge(ReadInstruction(data))
  {
    hide VarintFrom, Parse, TakeAll, ReadKey, ReadBytes;
    var reader := new ProtoReader(data);
    var message := NO_MESSAGE;
    while true
      invariant fresh(reader) && reader.data == data && reader.pos <= |data| && reader.good
      invariant TakeAll(message, Parse(data, reader.pos)) == ReadInstruction(data)
      decreases |data| - reader.pos
    {
      if reader.pos < |data| {
        ParseStep(message, data, reader.pos);
      } else {
        ParseEnd(message, data, reader.pos);
      }
      var more, field, wireType := reader.Next();
      if !more {
        if !reader.good {
          return Ignored;
        }
        if message.version != PROTOCOL_VERSION {
          return WrongVersion(message.version);
        }
        return Taken(message);
      }
      VarintAdvances(data, reader.pos, 0, 0);
      if wireType == 0 && 1 <= field <= 5 {
        var got, value := reader.Number();
        if !got {
          return Ignored;
        }
        message := TakeField(message, Num(field, value));
      } else if wireType == 2 && field == 6 {
        var got, bytes := reader.Text();
        if !got {
          return Ignored;
        }
        message := TakeField(message, Data(6, bytes));
      } else {
        reader.Skip(wireType, field);
        if !reader.good {
          return Ignored;
        }
      }
    }
  }

  // --- The user's input ---

  predicate Typable(e: UserEvent) {
    if e.columns == 0 then e.rows == 0 && |e.keys| < 0x1000_0000_0000_0000
    else e.keys == [] && e.columns < U64 && e.rows < U64
  }

  function ValueFields(e: UserEvent): seq<Field> {
    if e.columns > 0 then [Num(5, e.columns), Num(6, e.rows)] else [Data(4, e.keys)]
  }

  /** Keys or a size, wrapped twice. */
  function EventField(e: UserEvent): Field
    requires Typable(e)
  {
    EventCodes(e);
    Data(1, EncodeFields([Data(if e.columns > 0 then 3 else 2, EncodeFields(ValueFields(e)))]))
  }

  lemma {:induction false} VarintLength(v: nat, k: nat)
    requires v < Pow128(k) && 1 <= k
    ensures |Varint(v)| <= k
    decreases k
  {
    if v >= 128 {
      VarintLength(v / 128, k - 1);
    }
  }

  lemma SmallNumber(v: nat)
    requires v < U64
    ensures |Varint(v)| <= 10
  {
    Pow128Ten();
    assert Pow128(10) == 128 * Pow128(9);
    VarintLength(v, 10);
  }

  lemma FieldLength(f: Field)
    requires Codable(f)
    ensures |EncodeField(f)| <= 20 + if f.Data? then |f.bytes| else 0
    ensures EncodeFields([f]) == EncodeField(f)
  {
    hide Varint;
    SmallNumber(8 * f.field + FieldType(f));
    SmallNumber(if f.Num? then f.value else |f.bytes|);
    assert [f][1..] == [] && EncodeField(f) + [] == EncodeField(f);
  }

  lemma TwoFields(f: Field, g: Field)
    requires Codable(f) && Codable(g)
    ensures EncodeFields([f, g]) == EncodeField(f) + EncodeField(g)
  {
    hide EncodeField;
    assert [f, g][1..] == [g];
    FieldLength(g);
  }

  lemma EventCodes(e: UserEvent)
    requires Typable(e)
    ensures AllCodable(ValueFields(e)) && |EncodeFields(ValueFields(e))| <= |e.keys| + 40
    ensures AllCodable([Data(if e.columns > 0 then 3 else 2, EncodeFields(ValueFields(e)))])
    ensures |EncodeFields([Data(if e.columns > 0 then 3 else 2, EncodeFields(ValueFields(e)))])| < U64
  {
    hide EncodeField, EncodeFields;
    var fs := ValueFields(e);
    if e.columns > 0 {
      FieldLength(fs[0]);
      FieldLength(fs[1]);
      TwoFields(fs[0], fs[1]);
    } else {
      FieldLength(fs[0]);
    }
    FieldLength(Data(if e.columns > 0 then 3 else 2, EncodeFields(fs)));
  }

  function UserFields(events: seq<UserEvent>): seq<Field>
    requires forall i :: 0 <= i < |events| ==> Typable(events[i])
  {
    seq(|events|, i requires 0 <= i < |events| => EventField(events[i]))
  }

  /** The event a user message's field stands for, as the other side reads it. */
  function DecodeEvent(f: Field): Option<UserEvent> {
    if !f.Data? || f.field != 1 then None
    else
      var instruction := Parse(f.bytes, 0);
      if instruction.None? || |instruction.value| != 1 || !instruction.value[0].Data? then None
      else DecodeExtension(instruction.value[0])
  }

  function DecodeExtension(f: Field): Option<UserEvent>
    requires f.Data?
  {
    var values := Parse(f.bytes, 0);
    if values.None? then None
    else
      var v := values.value;
      if f.field == 2 && |v| == 1 && v[0].Data? && v[0].field == 4 then Some(UserEvent(v[0].bytes, 0, 0))
      else if f.field == 3 && |v| == 2 && v[0].Num? && v[0].field == 5 && v[1].Num? && v[1].field == 6 then
        Some(UserEvent([], v[0].value, v[1].value))
      else None
  }

  function DecodeEvents(fs: seq<Field>): Option<seq<UserEvent>> {
    if fs == [] then Some([])
    else
      var e, rest := DecodeEvent(fs[0]), DecodeEvents(fs[1..]);
      if e.Some? && rest.Some? then Some([e.value] + rest.value) else None
  }

  function DecodeUser(message: Bytes): Option<seq<UserEvent>> {
    var fs := Parse(message, 0);
    if fs.Some? then DecodeEvents(fs.value) else None
  }

  lemma EventRoundTrip(e: UserEvent)
    requires Typable(e)
    ensures DecodeEvent(EventField(e)) == Some(e)
  {
    EventCodes(e);
    FieldsReadBack(ValueFields(e));
    FieldsReadBack([Data(if e.columns > 0 then 3 else 2, EncodeFields(ValueFields(e)))]);
    hide Parse, EncodeFields;
  }

  lemma UserFieldsTail(events: seq<UserEvent>)
    requires events != [] && forall i :: 0 <= i < |events| ==> Typable(events[i])
    ensures UserFields(events) != [] && UserFields(events)[0] == EventField(events[0])
    ensures UserFields(events)[1..] == UserFields(events[1..])
  {
    hide EventField;
  }

  lemma {:induction false} EventsRoundTrip(events: seq<UserEvent>)
    requires forall i :: 0 <= i < |events| ==> Typable(events[i])
    ensures DecodeEvents(UserFields(events)) == Some(events)
    decreases |events|
  {
    if events == [] {
      assert UserFields(events) == [];
    } else {
      hide EventField, DecodeEvent, UserFields;
      EventRoundTrip(events[0]);
      EventsRoundTrip(events[1..]);
      UserFieldsTail(events);
      assert [events[0]] + events[1..] == events;
    }
  }

  lemma UserFieldsCode(events: seq<UserEvent>)
    requires forall i :: 0 <= i < |events| ==> Typable(events[i])
    ensures AllCodable(UserFields(events))
  {
    forall i | 0 <= i < |events| ensures Codable(UserFields(events)[i]) {
      EventCodes(events[i]);
    }
  }

  /** A user message is read back as exactly the events it was made from, in order. */
  lemma UserMessageRoundTrip(events: seq<UserEvent>)
    requires forall i :: 0 <= i < |events| ==> Typable(events[i])
    ensures AllCodable(UserFields(events)) && DecodeUser(EncodeFields(UserFields(events))) == Some(events)
  {
    UserFieldsCode(events);
    FieldsReadBack(UserFields(events));
    EventsRoundTrip(events);
    hide UserFields, EncodeFields, Parse;
  }

  /** What the server decodes of the diff from an index on is exactly the events typed from there on. */
  lemma UserDiffReadsBack(s: S.Sender, from: nat)
    requires s.eventBase <= from <= s.Total() && forall i :: 0 <= i < |s.events| ==> Typable(s.events[i])
    ensures AllCodable(UserFields(S.UserDiff(s, from)))
    ensures DecodeUser(EncodeFields(UserFields(S.UserDiff(s, from)))) == Some(s.events[from - s.eventBase..])
  {
    hide UserFields, DecodeUser, EncodeFields, AllCodable;
    assert S.UserDiff(s, from) == s.events[from - s.eventBase..];
    UserMessageRoundTrip(S.UserDiff(s, from));
  }

  lemma {:induction false} EncodeFieldsSnoc(a: seq<Field>, f: Field)
    requires AllCodable(a) && Codable(f)
    ensures AllCodable(a + [f]) && EncodeFields(a + [f]) == EncodeFields(a) + EncodeField(f)
    decreases |a|
  {
    hide EncodeField;
    if a == [] {
      assert a + [f] == [f] && [f][1..] == [];
      assert EncodeField(f) + [] == EncodeField(f) && [] + EncodeField(f) == EncodeField(f);
    } else {
      EncodeFieldsSnoc(a[1..], f);
      assert (a + [f])[1..] == a[1..] + [f] && (a + [f])[0] == a[0];
      assert EncodeField(a[0]) + (EncodeFields(a[1..]) + EncodeField(f))
          == (EncodeField(a[0]) + EncodeFields(a[1..])) + EncodeField(f);
    }
  }

  method PutNum(out: Bytes, field: nat, value: nat) returns (r: Bytes)
    requires Codable(Num(field, value))
    ensures r == out + EncodeField(Num(field, value))
  {
    hide Varint;
    r := PutVarint(out, 8 * field);
    r := PutVarint(r, value);
  }

  method PutData(out: Bytes, field: nat, bytes: Bytes) returns (r: Bytes)
    requires Codable(Data(field, bytes))
    ensures r == out + EncodeField(Data(field, bytes))
  {
    hide Varint;
    var key := PutVarint(out, 8 * field + 2);
    r := PutVarint(key, |bytes|);
    r := r + bytes;
    Regroup(out, Varint(8 * field + 2), Body(Data(field, bytes)), []);
    Regroup(out + Varint(8 * field + 2), Varint(|bytes|), bytes, []);
  }

  method EventValue(e: UserEvent) returns (value: Bytes)
    requires Typable(e)
    ensures AllCodable(ValueFields(e)) && value == EncodeFields(ValueFields(e))
  {
    hide EncodeField, EncodeFields;
    EventCodes(e);
    if e.columns > 0 {
      var columns := PutNum([], 5, e.columns);
      value := PutNum(columns, 6, e.rows);
      TwoFields(Num(5, e.columns), Num(6, e.rows));
      assert [] + EncodeField(Num(5, e.columns)) == EncodeField(Num(5, e.columns));
    } else {
      value := PutData([], 4, e.keys);
      FieldLength(Data(4, e.keys));
      assert [] + EncodeField(Data(4, e.keys)) == EncodeField(Data(4, e.keys));
    }
  }

  /** The instruction a typed event or a resize is sent as. */
  method EventInstruction(e: UserEvent) returns (instruction: Bytes)
    requires Typable(e)
    ensures Data(1, instruction) == EventField(e)
  {
    hide EncodeField, EncodeFields, ValueFields;
    EventCodes(e);
    var value := EventValue(e);
    var field := if e.columns > 0 then 3 else 2;
    instruction := PutData([], field, value);
    FieldLength(Data(field, value));
    assert [] + EncodeField(Data(field, value)) == EncodeField(Data(field, value));
  }

  /** userDiff's bytes for the events from an index on. */
  method UserMessage(events: seq<UserEvent>) returns (message: Bytes)
    requires forall i :: 0 <= i < |events| ==> Typable(events[i])
    ensures AllCodable(UserFields(events)) && message == EncodeFields(UserFields(events))
  {
    hide EncodeField, EncodeFields, EventField, Codable;
    UserFieldsCode(events);
    ghost var fs := UserFields(events);
    message := [];
    NoFields();
    for i := 0 to |events|
      invariant AllCodable(fs[..i]) && message == EncodeFields(fs[..i])
    {
      var instruction := EventInstruction(events[i]);
      assert fs[i] == Data(1, instruction) && Codable(fs[i]);
      message := PutData(message, 1, instruction);
      EncodeFieldsSnoc(fs[..i], fs[i]);
      assert fs[..i + 1] == fs[..i] + [fs[i]];
    }
    assert fs[..|events|] == fs;
  }

  lemma NoFields()
    ensures EncodeFields([]) == []
  {
  }
}
