/** What goes over the wire and into the journal, byte for byte: the protocol buffers of mosh's instructions and of what
  * they carry, the header of a fragment and the journal's records. The round trips say that this is read back. */
module MoshFormat {
  import opened Endian
  import opened MoshTypes
  import opened MoshWire
  import F = MoshFragments
  import H = MoshHost
  import J = MoshJournal
  import R = MoshReceiver

  // --- Fields ---

  lemma SmallVarint(v: nat)
    requires v < 128
    ensures Varint(v) == [v]
  {
  }

  /** Seven bits in each byte, the lowest first, and the highest bit set in all but the last. */
  lemma TwoByteVarint(high: nat, low: nat)
    requires 1 <= high < 128 && low < 128
    ensures Varint(128 * high + low) == [128 + low, high]
  {
    assert (128 * high + low) / 128 == high && (128 * high + low) % 128 == low;
    SmallVarint(high);
  }

  lemma NumBytes(field: nat, v: nat)
    requires 1 <= field < 16 && v < 128
    ensures Codable(Num(field, v)) && EncodeField(Num(field, v)) == [8 * field, v]
  {
    SmallVarint(8 * field);
    SmallVarint(v);
    hide Varint;
  }

  lemma DataBytes(field: nat, b: Bytes)
    requires 1 <= field < 16 && |b| < 128
    ensures Codable(Data(field, b)) && EncodeField(Data(field, b)) == [8 * field + 2, |b|] + b
  {
    SmallVarint(8 * field + 2);
    SmallVarint(|b|);
    hide Varint;
  }

  lemma OneField(f: Field)
    requires Codable(f)
    ensures EncodeFields([f]) == EncodeField(f)
  {
    hide EncodeField;
    assert [f][1..] == [];
    assert EncodeField(f) + [] == EncodeField(f);
  }

  lemma OneMoreField(f: Field, rest: seq<Field>)
    requires Codable(f) && AllCodable(rest)
    ensures AllCodable([f] + rest) && EncodeFields([f] + rest) == EncodeField(f) + EncodeFields(rest)
  {
    hide EncodeField;
    assert ([f] + rest)[1..] == rest;
  }

  // --- Instructions ---

  lemma NumberFirst(field: nat, v: nat, rest: seq<Field>, code: Bytes)
    requires 1 <= field < 16 && v < 128 && AllCodable(rest) && EncodeFields(rest) == code
    ensures AllCodable([Num(field, v)] + rest) && EncodeFields([Num(field, v)] + rest) == [8 * field, v] + code
  {
    NumBytes(field, v);
    OneMoreField(Num(field, v), rest);
  }

  lemma DiffAndChaff(diff: Bytes, chaff: Bytes)
    requires |diff| < 128 && |chaff| < 128
    ensures AllCodable([Data(6, diff), Data(7, chaff)])
    ensures EncodeFields([Data(6, diff), Data(7, chaff)]) == [0x32, |diff|] + diff + ([0x3A, |chaff|] + chaff)
  {
    DataBytes(6, diff);
    DataBytes(7, chaff);
    OneField(Data(7, chaff));
    OneMoreField(Data(6, diff), [Data(7, chaff)]);
    assert [Data(6, diff)] + [Data(7, chaff)] == [Data(6, diff), Data(7, chaff)];
    hide EncodeField, EncodeFields;
  }

  /** protocol_version is field 1, old_num 2, new_num 3, ack_num 4, throwaway_num 5, diff 6 and chaff 7. */
  lemma InstructionBytes(m: Message, chaff: Bytes)
    requires m.version < 128 && m.oldNum < 128 && m.newNum < 128 && m.ackNum < 128 && m.throwawayNum < 128
    requires |m.diff| < 128 && |chaff| < 128
    ensures AllCodable(InstructionFields(m, chaff))
    ensures EncodeFields(InstructionFields(m, chaff))
         == [0x08, m.version] + ([0x10, m.oldNum] + ([0x18, m.newNum] + ([0x20, m.ackNum] + ([0x28, m.throwawayNum]
            + ([0x32, |m.diff|] + m.diff + ([0x3A, |chaff|] + chaff))))))
  {
    DiffAndChaff(m.diff, chaff);
    hide EncodeFields, AllCodable;
    var f5 := [Data(6, m.diff), Data(7, chaff)];
    var f4 := [Num(5, m.throwawayNum)] + f5;
    var f3 := [Num(4, m.ackNum)] + f4;
    var f2 := [Num(3, m.newNum)] + f3;
    var f1 := [Num(2, m.oldNum)] + f2;
    NumberFirst(5, m.throwawayNum, f5, EncodeFields(f5));
    NumberFirst(4, m.ackNum, f4, EncodeFields(f4));
    NumberFirst(3, m.newNum, f3, EncodeFields(f3));
    NumberFirst(2, m.oldNum, f2, EncodeFields(f2));
    NumberFirst(1, m.version, f1, EncodeFields(f1));
    assert InstructionFields(m, chaff) == [Num(1, m.version)] + f1;
  }

  // --- What else a message may hold ---

  lemma KindOf(field: nat, kind: nat)
    requires kind < 8
    ensures (8 * field + kind) % 8 == kind && (8 * field + kind) / 8 == field
  {
  }

  /** Four or eight bytes are passed over by the wire types for them. */
  lemma FixedFields(before: Bytes, eight: Bytes, four: Bytes, tail: Bytes, field: nat)
    requires |eight| == 8 && |four| == 4
    ensures ReadBody(before + eight + tail, 8 * field + 1, |before|) == Got(Fixed(field, 8), |before| + 8)
    ensures ReadBody(before + four + tail, 8 * field + 5, |before|) == Got(Fixed(field, 4), |before| + 4)
  {
    hide VarintFrom;
    KindOf(field, 1);
    KindOf(field, 5);
  }

  /** No wire type is known but these two, numbers and bytes. */
  lemma OtherWireTypes(data: Bytes, pos: nat, field: nat, kind: nat)
    requires kind == 3 || kind == 4 || kind == 6 || kind == 7
    ensures ReadBody(data, 8 * field + kind, pos) == Damaged
  {
    KindOf(field, kind);
  }

  /** A number has at most ten bytes. */
  lemma {:induction false} TenBytesAtMost(data: Bytes, pos: nat, k: nat, value: nat)
    requires k <= 10 && forall i :: pos <= i < |data| && i < pos + 10 - k ==> data[i] >= 128
    ensures VarintFrom(data, pos, k, value) == Damaged
    decreases 10 - k
  {
    if k < 10 && pos < |data| {
      TenBytesAtMost(data, pos + 1, k + 1, value + data[pos] % 128 * Pow128(k) % U64);
    }
  }

  /** A field without a number, or with one an int cannot hold, is damage. */
  lemma FieldNumbers(data: Bytes, pos: nat)
    ensures ReadKey(data, pos).Got?
       <==> var key := VarintFrom(data, pos, 0, 0); key.Got? && 8 <= key.value < 8 * 0x8000_0000
    ensures ReadKey(data, pos).Got? ==> ReadKey(data, pos) == VarintFrom(data, pos, 0, 0)
  {
    hide VarintFrom;
  }

  lemma {:induction false} TakesOneAfterAnother(m: Message, fs: seq<Field>, f: Field)
    ensures TakeFields(m, fs + [f]) == TakeField(TakeFields(m, fs), f)
    decreases |fs|
  {
    hide TakeField;
    if fs == [] {
      assert fs + [f] == [f] + [];
      TakeOne(m, f, []);
      TakeNone(TakeField(m, f));
    } else {
      assert fs + [f] == [fs[0]] + (fs[1..] + [f]) && fs == [fs[0]] + fs[1..];
      TakeOne(m, fs[0], fs[1..] + [f]);
      TakeOne(m, fs[0], fs[1..]);
      TakesOneAfterAnother(TakeField(m, fs[0]), fs[1..], f);
    }
  }

  /** Of a field given more than once the last value counts, and fields that are not the instruction's do not. */
  lemma LastValueCounts(m: Message, fs: seq<Field>, f: Field)
    ensures var before, after := TakeFields(m, fs), TakeFields(m, fs + [f]);
      && (f.Num? && f.field == 1 ==> after == before.(version := f.value))
      && (f.Num? && f.field == 2 ==> after == before.(oldNum := f.value))
      && (f.Num? && f.field == 3 ==> after == before.(newNum := f.value))
      && (f.Num? && f.field == 4 ==> after == before.(ackNum := f.value))
      && (f.Num? && f.field == 5 ==> after == before.(throwawayNum := f.value))
      && (f.Data? && f.field == 6 ==> after == before.(diff := f.bytes))
      && (!(f.Num? && 1 <= f.field <= 5) && !(f.Data? && f.field == 6) ==> after == before)
  {
    TakesOneAfterAnother(m, fs, f);
    hide TakeFields;
  }

  // --- What they carry ---

  /** An extension in an instruction in a message. */
  lemma WrappedBytes(kind: nat, inner: Bytes)
    requires 1 <= kind < 16 && |inner| < 124
    ensures Codable(Data(kind, inner)) && Codable(Data(1, EncodeFields([Data(kind, inner)])))
    ensures EncodeFields([Data(1, EncodeFields([Data(kind, inner)]))])
         == [0x0A, |inner| + 2] + ([8 * kind + 2, |inner|] + inner)
  {
    hide EncodeField, EncodeFields;
    DataBytes(kind, inner);
    OneField(Data(kind, inner));
    var outer := [8 * kind + 2, |inner|] + inner;
    assert |outer| == |inner| + 2;
    DataBytes(1, outer);
    OneField(Data(1, outer));
  }

  lemma SizeValues(columns: nat, rows: nat)
    requires 1 <= columns < 128 && rows < 128
    ensures AllCodable([Num(5, columns), Num(6, rows)])
    ensures EncodeFields([Num(5, columns), Num(6, rows)]) == [0x28, columns, 0x30, rows]
  {
    NumBytes(6, rows);
    OneField(Num(6, rows));
    NumberFirst(5, columns, [Num(6, rows)], [0x30, rows]);
    assert [Num(5, columns)] + [Num(6, rows)] == [Num(5, columns), Num(6, rows)];
  }

  lemma KeyValues(keys: Bytes)
    requires |keys| < 120
    ensures AllCodable([Data(4, keys)]) && EncodeFields([Data(4, keys)]) == [0x22, |keys|] + keys
  {
    DataBytes(4, keys);
    OneField(Data(4, keys));
  }

  /** Keys are field 4 of extension 2 of an instruction, and that field 1 of the message. */
  lemma KeyBytes(keys: Bytes)
    requires |keys| < 120
    ensures Typable(UserEvent(keys, 0, 0)) && Codable(EventField(UserEvent(keys, 0, 0)))
    ensures EncodeFields([EventField(UserEvent(keys, 0, 0))])
         == [0x0A, |keys| + 4] + ([0x12, |keys| + 2] + ([0x22, |keys|] + keys))
  {
    hide EncodeField, EncodeFields;
    KeyValues(keys);
    WrappedBytes(2, [0x22, |keys|] + keys);
  }

  /** A size is extension 3, with its width as field 5 and its height as field 6. */
  lemma SizeBytes(columns: nat, rows: nat)
    requires 1 <= columns < 128 && rows < 128
    ensures Typable(UserEvent([], columns, rows)) && Codable(EventField(UserEvent([], columns, rows)))
    ensures EncodeFields([EventField(UserEvent([], columns, rows))])
         == [0x0A, 0x06] + ([0x1A, 0x04] + [0x28, columns, 0x30, rows])
  {
    hide EncodeField, EncodeFields;
    SizeValues(columns, rows);
    WrappedBytes(3, [0x28, columns, 0x30, rows]);
  }

  lemma SamePart(bytes: Bytes, columns: nat, rows: nat)
    requires |bytes| < 120 && 1 <= columns < 128 && rows < 128
    ensures Typable(UserEvent(bytes, 0, 0)) && H.PartField(H.HostBytes(bytes)) == EventField(UserEvent(bytes, 0, 0))
    ensures Typable(UserEvent([], columns, rows))
         && H.PartField(H.HostResize(columns, rows)) == EventField(UserEvent([], columns, rows))
  {
    hide EncodeFields;
  }

  /** What the server writes has the same layout, and a newest echo as field 8 of extension 7. */
  lemma HostBytesAre(bytes: Bytes, columns: nat, rows: nat, echo: nat)
    requires |bytes| < 120 && 1 <= columns < 128 && rows < 128 && echo < 128
    ensures H.Writable(H.HostBytes(bytes)) && H.Writable(H.HostResize(columns, rows)) && H.Writable(H.EchoAck(echo))
    ensures EncodeFields([H.PartField(H.HostBytes(bytes))])
         == [0x0A, |bytes| + 4] + ([0x12, |bytes| + 2] + ([0x22, |bytes|] + bytes))
    ensures EncodeFields([H.PartField(H.HostResize(columns, rows))])
         == [0x0A, 0x06] + ([0x1A, 0x04] + [0x28, columns, 0x30, rows])
    ensures EncodeFields([H.PartField(H.EchoAck(echo))]) == [0x0A, 0x04] + ([0x3A, 0x02] + [0x40, echo])
  {
    KeyBytes(bytes);
    SizeBytes(columns, rows);
    SamePart(bytes, columns, rows);
    NumBytes(8, echo);
    OneField(Num(8, echo));
    WrappedBytes(7, [0x40, echo]);
    hide EncodeField, EncodeFields, EventField;
    EchoField(echo);
  }

  lemma EchoField(echo: nat)
    requires echo < 128 && EncodeFields([Num(8, echo)]) == [0x40, echo]
    ensures H.PartField(H.EchoAck(echo)) == Data(1, EncodeFields([Data(7, [0x40, echo])]))
  {
    hide EncodeFields;
  }

  /** A size that breaks off after its first byte is taken as far as it goes. */
  lemma TornSize(low: nat, d: R.HostDiff)
    requires low < 128
    ensures H.Values(H.RESIZE, [0x28, 128 + low], 0, d) == d.(columns := Some(low))
    ensures H.Values(H.RESIZE, [0x30, 128 + low], 0, d) == d.(rows := Some(low))
  {
    TornField([0x28, 128 + low], 0x28, low);
    TornField([0x30, 128 + low], 0x30, low);
    hide VarintFrom, PartOfVarint, ReadBody, ReadKey;
    H.ValuesStep(H.RESIZE, [0x28, 128 + low], 0, d);
    H.ValuesStep(H.RESIZE, [0x30, 128 + low], 0, d);
  }

  lemma TornField(data: Bytes, key: nat, low: nat)
    requires low < 128 && data == [key, 128 + low] && (key == 0x28 || key == 0x30)
    ensures ReadKey(data, 0) == Got(key, 1) && ReadBody(data, key, 1) == Damaged && PartOfVarint(data, 1, 0, 0) == low
  {
    assert Pow128(0) == 1;
    assert VarintFrom(data, 0, 0, 0) == Got(key, 1);
    assert VarintFrom(data, 2, 1, low) == Damaged;
  }

  // --- Fragments ---

  lemma {:induction false} NothingAbove(n: nat)
    ensures forall i | 0 <= i < n :: BigEndian(0, n)[i] == 0
  {
    if n > 0 {
      NothingAbove(n - 1);
    }
  }

  /** A number is written with its lowest byte last. */
  lemma SmallNumberBytes(v: nat)
    requires v < 256
    ensures BigEndian(v, 8) == [0, 0, 0, 0, 0, 0, 0, v]
  {
    NothingAbove(7);
  }

  lemma TwoBytes(high: nat, low: nat)
    requires high < 256 && low < 256
    ensures BigEndian(256 * high + low, 2) == [high, low]
  {
    assert (256 * high + low) / 256 == high && (256 * high + low) % 256 == low;
    assert BigEndian(high, 1) == [high];
  }

  /** Eight bytes of id, a final flag in front of fifteen bits of number, and the part. */
  lemma FragmentBytes(id: nat, number: nat, final: bool, part: Bytes)
    requires id < 256 && number < 256
    ensures F.Encode(F.Fragment(id, number, final, part))
         == [0, 0, 0, 0, 0, 0, 0, id] + [if final then 0x80 else 0, number] + part
  {
    SmallNumberBytes(id);
    TwoBytes(if final then 0x80 else 0, number);
    hide BigEndian;
  }

  // --- The journal ---

  /** A record is its letter, the length of what follows in four bytes, and that. */
  lemma NumberRecordBytes(n: nat)
    requires n < 256
    ensures var rest := [0, 0, 0, 8, 0, 0, 0, 0, 0, 0, 0, n];
      && J.Encode(SeqReserved(n)) == ['Q' as int] + rest
      && J.Encode(StateReserved(n)) == ['M' as int] + rest
      && J.Encode(Front(n)) == ['F' as int] + rest
      && J.Encode(Latest(n)) == ['L' as int] + rest
      && J.Encode(Base(n)) == ['B' as int] + rest
  {
    SmallNumberBytes(n);
    EightIs();
    hide BigEndian;
  }

  lemma EightIs()
    ensures BigEndian(8, 4) == [0, 0, 0, 8]
  {
    NothingAbove(3);
  }

  lemma Joined(a: Bytes, b: Bytes, c: Bytes, d: Bytes)
    ensures a + b + (c + d) == a + b + c + d
  {
  }

  /** The others' letters and what they hold. */
  lemma TextRecordBytes(b: Bytes)
    ensures J.Encode(Address(b)) == ['A' as int] + BigEndian(|b|, 4) + b
    ensures J.Encode(Note(b)) == ['N' as int] + BigEndian(|b|, 4) + b
  {
    hide BigEndian;
  }

  lemma SentRecordBytes(index: nat, count: nat)
    ensures J.Encode(Sent(index, count)) == ['T' as int] + BigEndian(16, 4) + BigEndian(index, 8) + BigEndian(count, 8)
  {
    hide BigEndian;
    Joined(['T' as int], BigEndian(16, 4), BigEndian(index, 8), BigEndian(count, 8));
  }

  lemma KeysData(b: Bytes, index: nat)
    ensures J.Type(Typed(index, UserEvent(b, 0, 0))) == 'E' as int
    ensures J.Data(Typed(index, UserEvent(b, 0, 0))) == BigEndian(index, 8) + (['K' as int] + b)
    ensures |J.Data(Typed(index, UserEvent(b, 0, 0)))| == 9 + |b|
  {
    hide BigEndian, J.Sizes;
  }

  lemma KeysRecordBytes(b: Bytes, index: nat)
    ensures J.Encode(Typed(index, UserEvent(b, 0, 0)))
         == ['E' as int] + BigEndian(9 + |b|, 4) + (BigEndian(index, 8) + (['K' as int] + b))
  {
    hide BigEndian, J.Data, J.Type;
    KeysData(b, index);
  }
}
