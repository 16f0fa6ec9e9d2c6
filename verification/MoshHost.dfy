/** The server's host messages: what the bytes of a change to the screen ask for. */
module MoshHost {
  import opened MoshTypes
  import opened MoshWire
  import R = MoshReceiver

  const HOST_BYTES: nat := 2
  const RESIZE: nat := 3
  const ECHO_ACK: nat := 7

  const NO_CHANGE: R.HostDiff := R.HostDiff([], None, None)

  // --- Reading ---

  function TakeValue(kind: nat, d: R.HostDiff, f: Field): R.HostDiff {
    if kind == HOST_BYTES && f.Data? && f.field == 4 then d.(bytes := d.bytes + f.bytes)
    else if kind == RESIZE && f.Num? && f.field == 5 then d.(columns := Some(f.value))
    else if kind == RESIZE && f.Num? && f.field == 6 then d.(rows := Some(f.value))
    else d
  }

  /** A size whose number breaks off is taken as far as it goes. */
  function TakeTorn(kind: nat, d: R.HostDiff, key: nat, part: nat): R.HostDiff {
    if key % 8 == 0 then TakeValue(kind, d, Num(key / 8, part)) else d
  }

  /** The values of an extension. Damage ends it, which does not spoil the message around it. */
  function Values(kind: nat, data: Bytes, pos: nat, d: R.HostDiff): R.HostDiff
    decreases |data| - pos
  {
    if pos >= |data| || ReadKey(data, pos).Damaged? then d
    else
      var key := ReadKey(data, pos);
      VarintAdvances(data, pos, 0, 0);
      BodyAdvances(data, key.value, key.pos);
      var f := ReadBody(data, key.value, key.pos);
      if f.Damaged? then TakeTorn(kind, d, key.value, PartOfVarint(data, key.pos, 0, 0))
      else Values(kind, data, f.pos, TakeValue(kind, d, f.value))
  }

  predicate IsExtension(f: Field) { f.Data? && f.field in {HOST_BYTES, RESIZE, ECHO_ACK} }

  function TakeExtension(d: R.HostDiff, f: Field): R.HostDiff {
    if IsExtension(f) then Values(f.field, f.bytes, 0, d) else d
  }

  function Extensions(data: Bytes, pos: nat, d: R.HostDiff): R.HostDiff
    decreases |data| - pos
  {
    if pos >= |data| || ReadKey(data, pos).Damaged? then d
    else
      var key := ReadKey(data, pos);
      VarintAdvances(data, pos, 0, 0);
      BodyAdvances(data, key.value, key.pos);
      var f := ReadBody(data, key.value, key.pos);
      if f.Damaged? then d else Extensions(data, f.pos, TakeExtension(d, f.value))
  }

  function TakeInstruction(d: R.HostDiff, f: Field): R.HostDiff {
    if f.Data? && f.field == 1 then Extensions(f.bytes, 0, d) else d
  }

  function Instructions(d: R.HostDiff, fs: seq<Field>): R.HostDiff
  {
    if fs == [] then d else TakeInstruction(Instructions(d, fs[..|fs| - 1]), fs[|fs| - 1])
  }

  /** A message that is damaged itself is worth nothing. */
  function ReadHost(diff: Bytes): Option<R.HostDiff> {
    var fs := Parse(diff, 0);
    if fs.Some? then Some(Instructions(NO_CHANGE, fs.value)) else None
  }

  // --- The loops ---

  lemma ValuesStep(kind: nat, data: Bytes, pos: nat, d: R.HostDiff)
    requires pos < |data|
    ensures var key := ReadKey(data, pos);
      if key.Damaged? then Values(kind, data, pos, d) == d
      else
        var f := ReadBody(data, key.value, key.pos);
        && pos < key.pos <= |data|
        && (f.Damaged? ==> Values(kind, data, pos, d) == TakeTorn(kind, d, key.value, PartOfVarint(data, key.pos, 0, 0)))
        && (f.Got? ==> key.pos <= f.pos <= |data|
                       && Values(kind, data, pos, d) == Values(kind, data, f.pos, TakeValue(kind, d, f.value)))
  {
    hide VarintFrom, ReadBody, PartOfVarint;
    VarintAdvances(data, pos, 0, 0);
    if ReadKey(data, pos).Got? {
      BodyAdvances(data, ReadKey(data, pos).value, ReadKey(data, pos).pos);
    }
  }

  method ReadValues(kind: nat, data: Bytes, d0: R.HostDiff) returns (d: R.HostDiff)
    ensures d == Values(kind, data, 0, d0)
  {
    hide VarintFrom, ReadKey, ReadBytes, PartOfVarint, Values;
    var reader := new ProtoReader(data);
    d := d0;
    while true
      invariant fresh(reader) && reader.data == data && reader.pos <= |data| && reader.good
      invariant Values(kind, data, reader.pos, d) == Values(kind, data, 0, d0)
      decreases |data| - reader.pos
    {
      if reader.pos < |data| {
        ValuesStep(kind, data, reader.pos, d);
      } else {
        ValuesEnd(kind, data, reader.pos, d);
      }
      var more, field, wireType := reader.Next();
      if !more {
        return;
      }
      if kind == HOST_BYTES && field == 4 && wireType == 2 {
        var got, bytes := reader.Text();
        if !got {
          return;
        }
        d := d.(bytes := d.bytes + bytes);
      } else if kind == RESIZE && (field == 5 || field == 6) && wireType == 0 {
        var got, number := reader.Number();
        if field == 5 {
          d := d.(columns := Some(number));
        } else {
          d := d.(rows := Some(number));
        }
        if !got {
          return;
        }
      } else {
        reader.Skip(wireType, field);
        if !reader.good {
          return;
        }
      }
    }
  }

  lemma ValuesEnd(kind: nat, data: Bytes, pos: nat, d: R.HostDiff)
    requires pos >= |data|
    ensures Values(kind, data, pos, d) == d
  {
  }

  lemma ExtensionsStep(data: Bytes, pos: nat, d: R.HostDiff)
    ensures pos >= |data| ==> Extensions(data, pos, d) == d
    ensures pos < |data| ==>
      var key := ReadKey(data, pos);
      if key.Damaged? then Extensions(data, pos, d) == d
      else
        var f := ReadBody(data, key.value, key.pos);
        && pos < key.pos <= |data|
        && (f.Damaged? ==> Extensions(data, pos, d) == d)
        && (f.Got? ==> key.pos <= f.pos <= |data|
                       && Extensions(data, pos, d) == Extensions(data, f.pos, TakeExtension(d, f.value)))
  {
    hide VarintFrom, ReadBody, TakeExtension;
    if pos < |data| {
      VarintAdvances(data, pos, 0, 0);
      if ReadKey(data, pos).Got? {
        BodyAdvances(data, ReadKey(data, pos).value, ReadKey(data, pos).pos);
      }
    }
  }

  method ReadExtensions(data: Bytes, d0: R.HostDiff) returns (d: R.HostDiff)
    ensures d == Extensions(data, 0, d0)
  {
    hide VarintFrom, ReadKey, ReadBytes, Values, Extensions;
    var reader := new ProtoReader(data);
    d := d0;
    while true
      invariant fresh(reader) && reader.data == data && reader.pos <= |data| && reader.good
      invariant Extensions(data, reader.pos, d) == Extensions(data, 0, d0)
      decreases |data| - reader.pos
    {
      ExtensionsStep(data, reader.pos, d);
      var more, field, wireType := reader.Next();
      if !more {
        return;
      }
      if wireType == 2 && (field == HOST_BYTES || field == RESIZE || field == ECHO_ACK) {
        var got, extension := reader.Text();
        if !got {
          return;
        }
        d := ReadValues(field, extension, d);
      } else {
        reader.Skip(wireType, field);
        if !reader.good {
          return;
        }
      }
    }
  }

  /** What is left of the message after d, if it is whole. */
  function Ahead(d: R.HostDiff, fs: Option<seq<Field>>): Option<R.HostDiff> {
    if fs.Some? then Some(InstructionsFrom(d, fs.value)) else None
  }

  function InstructionsFrom(d: R.HostDiff, fs: seq<Field>): R.HostDiff
    decreases |fs|
  {
    if fs == [] then d else InstructionsFrom(TakeInstruction(d, fs[0]), fs[1..])
  }

  lemma {:induction false} InstructionsAnyOrder(d: R.HostDiff, fs: seq<Field>)
    ensures InstructionsFrom(d, fs) == Instructions(d, fs)
    decreases |fs|
  {
    hide TakeInstruction;
    if fs != [] {
      InstructionsAnyOrder(TakeInstruction(d, fs[0]), fs[1..]);
      FirstInstruction(d, fs);
    }
  }

  lemma {:induction false} FirstInstruction(d: R.HostDiff, fs: seq<Field>)
    requires fs != []
    ensures Instructions(d, fs) == Instructions(TakeInstruction(d, fs[0]), fs[1..])
    decreases |fs|
  {
    hide TakeInstruction;
    var n := |fs| - 1;
    if n > 0 {
      FirstInstruction(d, fs[..n]);
      assert fs[..n][1..] == fs[1..][..n - 1];
    } else {
      assert fs[..0] == [] && Instructions(d, []) == d;
    }
  }

  lemma AheadStep(d: R.HostDiff, data: Bytes, pos: nat)
    ensures pos >= |data| ==> Ahead(d, Parse(data, pos)) == Some(d)
    ensures pos < |data| ==>
      var key := ReadKey(data, pos);
      if key.Damaged? || ReadBody(data, key.value, key.pos).Damaged? then Ahead(d, Parse(data, pos)) == None
      else
        var f := ReadBody(data, key.value, key.pos);
        && pos < key.pos <= f.pos <= |data|
        && Ahead(d, Parse(data, pos)) == Ahead(TakeInstruction(d, f.value), Parse(data, f.pos))
  {
    hide VarintFrom, ReadBody, TakeInstruction;
    if pos < |data| {
      VarintAdvances(data, pos, 0, 0);
      var key := ReadKey(data, pos);
      if key.Got? {
        BodyAdvances(data, key.value, key.pos);
        var f := ReadBody(data, key.value, key.pos);
        if f.Got? && Parse(data, f.pos).Some? {
          assert ([f.value] + Parse(data, f.pos).value)[1..] == Parse(data, f.pos).value;
        }
      }
    }
  }

  /** applyDiff's reading of a host message. */
  method DecodeHost(diff: Bytes) returns (d: Option<R.HostDiff>)
    ensures d == ReadHost(diff)
  {
    hide VarintFrom, ReadKey, ReadBytes, Parse, Ahead, Extensions, Instructions;
    var reader := new ProtoReader(diff);
    var taken := NO_CHANGE;
    while true
      invariant fresh(reader) && reader.data == diff && reader.pos <= |diff| && reader.good
      invariant Ahead(taken, Parse(diff, reader.pos)) == Ahead(NO_CHANGE, Parse(diff, 0))
      decreases |diff| - reader.pos
    {
      AheadStep(taken, diff, reader.pos);
      var more, field, wireType := reader.Next();
      if !more {
        AheadIsRead(diff);
        return if reader.good then Some(taken) else None;
      }
      if field == 1 && wireType == 2 {
        var got, instruction := reader.Text();
        if !got {
          AheadIsRead(diff);
          return None;
        }
        taken := ReadExtensions(instruction, taken);
      } else {
        reader.Skip(wireType, field);
        if !reader.good {
          AheadIsRead(diff);
          return None;
        }
      }
    }
  }

  lemma AheadIsRead(diff: Bytes)
    ensures Ahead(NO_CHANGE, Parse(diff, 0)) == ReadHost(diff)
  {
    hide Parse;
    if Parse(diff, 0).Some? {
      InstructionsAnyOrder(NO_CHANGE, Parse(diff, 0).value);
    }
  }

  // --- What a server writes ---

  datatype HostPart = HostBytes(bytes: Bytes) | HostResize(columns: nat, rows: nat) | EchoAck(num: nat)

  predicate Writable(p: HostPart) {
    match p
    case HostBytes(b) => |b| < 0x1000_0000_0000_0000
    case HostResize(c, r) => c < U64 && r < U64
    case EchoAck(n) => n < U64
  }

  function PartKind(p: HostPart): nat {
    match p case HostBytes(_) => HOST_BYTES case HostResize(_, _) => RESIZE case EchoAck(_) => ECHO_ACK
  }

  function PartValues(p: HostPart): seq<Field> {
    match p
    case HostBytes(b) => [Data(4, b)]
    case HostResize(c, r) => [Num(5, c), Num(6, r)]
    case EchoAck(n) => [Num(8, n)]
  }

  lemma PartCodes(p: HostPart)
    requires Writable(p)
    ensures AllCodable(PartValues(p)) && AllCodable([Data(PartKind(p), EncodeFields(PartValues(p)))])
    ensures |EncodeFields([Data(PartKind(p), EncodeFields(PartValues(p)))])| < U64
  {
    hide EncodeField, EncodeFields;
    var fs := PartValues(p);
    FieldLength(fs[0]);
    if p.HostResize? {
      FieldLength(fs[1]);
      TwoFields(fs[0], fs[1]);
    }
    FieldLength(Data(PartKind(p), EncodeFields(fs)));
  }

  function PartField(p: HostPart): (f: Field)
    requires Writable(p)
    ensures Codable(f)
  {
    PartCodes(p);
    Data(1, EncodeFields([Data(PartKind(p), EncodeFields(PartValues(p)))]))
  }

  function PartFields(parts: seq<HostPart>): (fs: seq<Field>)
    requires forall i :: 0 <= i < |parts| ==> Writable(parts[i])
    ensures |fs| == |parts| && AllCodable(fs) && forall i :: 0 <= i < |fs| ==> fs[i] == PartField(parts[i])
  {
    seq(|parts|, i requires 0 <= i < |parts| => PartField(parts[i]))
  }

  /** The bytes one after the other and the last size, whatever else the message says. */
  function Changes(parts: seq<HostPart>): R.HostDiff {
    if parts == [] then NO_CHANGE
    else
      var d := Changes(parts[..|parts| - 1]);
      match parts[|parts| - 1]
      case HostBytes(b) => d.(bytes := d.bytes + b)
      case HostResize(c, r) => d.(columns := Some(c), rows := Some(r))
      case EchoAck(_) => d
  }

  function TakeValues(kind: nat, d: R.HostDiff, fs: seq<Field>): R.HostDiff
    decreases |fs|
  {
    if fs == [] then d else TakeValues(kind, TakeValue(kind, d, fs[0]), fs[1..])
  }

  lemma {:induction false} ValuesOfParse(kind: nat, data: Bytes, pos: nat, d: R.HostDiff, fs: seq<Field>)
    requires Parse(data, pos) == Some(fs)
    ensures Values(kind, data, pos, d) == TakeValues(kind, d, fs)
    decreases |data| - pos
  {
    hide VarintFrom, ReadBody, ReadKey;
    if pos < |data| {
      ValuesStep(kind, data, pos, d);
      var key := ReadKey(data, pos);
      var f := ReadBody(data, key.value, key.pos);
      var rest := Parse(data, f.pos).value;
      assert fs == [f.value] + rest && fs[1..] == rest;
      ValuesOfParse(kind, data, f.pos, TakeValue(kind, d, f.value), rest);
    }
  }

  lemma ExtensionOfParse(data: Bytes, d: R.HostDiff, f: Field)
    requires Parse(data, 0) == Some([f])
    ensures Extensions(data, 0, d) == TakeExtension(d, f)
  {
    hide VarintFrom, ReadBody, ReadKey, TakeExtension;
    ExtensionsStep(data, 0, d);
    assert |data| > 0;
    var key := ReadKey(data, 0);
    var g := ReadBody(data, key.value, key.pos);
    var rest := Parse(data, g.pos).value;
    assert [f] == [g.value] + rest;
    assert |[f]| == 1 + |rest|;
    NothingParsed(data, g.pos);
    ExtensionsStep(data, g.pos, TakeExtension(d, g.value));
    assert f == ([g.value] + rest)[0];
  }

  lemma NothingParsed(data: Bytes, pos: nat)
    requires Parse(data, pos) == Some([])
    ensures pos >= |data|
  {
  }

  lemma PartReadsBack(p: HostPart, d: R.HostDiff)
    requires Writable(p)
    ensures TakeInstruction(d, PartField(p))
         == match p
            case HostBytes(b) => d.(bytes := d.bytes + b)
            case HostResize(c, r) => d.(columns := Some(c), rows := Some(r))
            case EchoAck(_) => d
  {
    PartCodes(p);
    var values := EncodeFields(PartValues(p));
    var extension := Data(PartKind(p), values);
    FieldsReadBack(PartValues(p));
    FieldsReadBack([extension]);
    ExtensionOfParse(EncodeFields([extension]), d, extension);
    ValuesOfParse(PartKind(p), values, 0, d, PartValues(p));
    hide Parse, EncodeFields, Values, Extensions;
    TakePart(p, d);
  }

  lemma TakePart(p: HostPart, d: R.HostDiff)
    ensures TakeValues(PartKind(p), d, PartValues(p))
         == match p
            case HostBytes(b) => d.(bytes := d.bytes + b)
            case HostResize(c, r) => d.(columns := Some(c), rows := Some(r))
            case EchoAck(_) => d
  {
    var fs, kind := PartValues(p), PartKind(p);
    var e := TakeValue(kind, d, fs[0]);
    if p.HostResize? {
      assert fs[1..] == [fs[1]] && [fs[1]][1..] == [];
      assert TakeValues(kind, e, [fs[1]]) == TakeValue(kind, e, fs[1]);
    } else {
      assert fs[1..] == [];
    }
  }

  lemma {:induction false} PartsReadBack(parts: seq<HostPart>)
    requires forall i :: 0 <= i < |parts| ==> Writable(parts[i])
    ensures Instructions(NO_CHANGE, PartFields(parts)) == Changes(parts)
  {
    if parts != [] {
      var n := |parts| - 1;
      PartReadsBack(parts[n], Changes(parts[..n]));
      hide PartField, TakeInstruction, Instructions;
      PartsReadBack(parts[..n]);
      PartFieldsLast(parts);
      OneMoreInstruction(NO_CHANGE, PartFields(parts[..n]), PartField(parts[n]));
    }
  }

  lemma PartFieldsLast(parts: seq<HostPart>)
    requires parts != [] && forall i :: 0 <= i < |parts| ==> Writable(parts[i])
    ensures PartFields(parts) == PartFields(parts[..|parts| - 1]) + [PartField(parts[|parts| - 1])]
  {
    hide PartField;
  }

  lemma OneMoreInstruction(d: R.HostDiff, fs: seq<Field>, f: Field)
    ensures Instructions(d, fs + [f]) == TakeInstruction(Instructions(d, fs), f)
  {
    hide TakeInstruction;
    assert (fs + [f])[..|fs|] == fs;
  }

  /** A host message is read back as all its bytes in order and its last size. */
  lemma HostMessageRoundTrip(parts: seq<HostPart>)
    requires forall i :: 0 <= i < |parts| ==> Writable(parts[i])
    ensures ReadHost(EncodeFields(PartFields(parts))) == Some(Changes(parts))
  {
    FieldsReadBack(PartFields(parts));
    PartsReadBack(parts);
    hide Parse, EncodeFields, Instructions, PartFields;
  }

  /** applyDiff from the instruction's bytes on. */
  method ApplyMessage<S(!new)>(screens: R.Screens<S>, oldNum: nat, newNum: nat, diff: Bytes)
    modifies screens
    ensures screens.State() == match ReadHost(diff)
                               case Some(d) => R.ApplyDiff(screens.vt, old(screens.State()), oldNum, newNum, d)
                               case None => old(screens.State())
  {
    hide ReadHost, R.ApplyDiff;
    var d := DecodeHost(diff);
    if d.Some? {
      screens.Apply(oldNum, newNum, d.value);
    }
  }

  // --- Damage ---

  /** The fields that are read one after the other between two places. */
  predicate ReadsTo(data: Bytes, pos: nat, fs: seq<Field>, end: nat)
    decreases |fs|
  {
    if fs == [] then pos == end
    else
      && pos < |data| && ReadKey(data, pos).Got?
      && (var f := ReadBody(data, ReadKey(data, pos).value, ReadKey(data, pos).pos);
          f.Got? && f.value == fs[0] && ReadsTo(data, f.pos, fs[1..], end))
  }

  predicate BreaksOff(data: Bytes, pos: nat) {
    pos >= |data| || ReadKey(data, pos).Damaged? || ReadBody(data, ReadKey(data, pos).value, ReadKey(data, pos).pos).Damaged?
  }

  function TakeExtensions(d: R.HostDiff, fs: seq<Field>): R.HostDiff
    decreases |fs|
  {
    if fs == [] then d else TakeExtensions(TakeExtension(d, fs[0]), fs[1..])
  }

  /** What comes before the damage in an instruction counts, nothing behind it does. */
  lemma {:induction false} BeforeDamageCounts(data: Bytes, pos: nat, d: R.HostDiff, fs: seq<Field>, end: nat)
    requires ReadsTo(data, pos, fs, end) && BreaksOff(data, end)
    ensures Extensions(data, pos, d) == TakeExtensions(d, fs)
    decreases |fs|
  {
    hide VarintFrom, ReadBody, ReadKey, TakeExtension;
    ExtensionsStep(data, pos, d);
    if fs != [] {
      var f := ReadBody(data, ReadKey(data, pos).value, ReadKey(data, pos).pos);
      BeforeDamageCounts(data, f.pos, TakeExtension(d, fs[0]), fs[1..], end);
    }
  }

  /** A message that is damaged itself says nothing at all. */
  lemma DamagedSaysNothing(diff: Bytes)
    ensures ReadHost(diff) == None <==> Parse(diff, 0) == None
  {
  }
}
