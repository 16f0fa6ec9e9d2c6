/** The journal file byte by byte: what is written, and what reading gives back however short the file was cut. */
module MoshJournal {
  import opened Endian
  import opened MoshTypes
  import S = MoshSender
  import R = MoshScreens

  const MAX_FILE: nat := 64 * 1024 * 1024
  const MAX_ADDRESS: nat := 128

  // --- Numbers ---

  function Number(v: nat): (b: Bytes)
    ensures |b| == 8
  {
    BigEndian(v, 8)
  }

  lemma NumberRoundTrip(v: nat)
    requires v < U64
    ensures FromBigEndian(Number(v)) == v
  {
    PowSizes();
    BigEndianRoundTrip(v, 8);
  }

  // --- Records ---

  const RESIZE: Byte := 'R' as int
  const KEYS: Byte := 'K' as int

  function Type(r: Record): Byte {
    match r
    case Address(_) => 'A' as int
    case Note(_) => 'N' as int
    case SeqReserved(_) => 'Q' as int
    case StateReserved(_) => 'M' as int
    case Front(_) => 'F' as int
    case Screen(_) => 'S' as int
    case Latest(_) => 'L' as int
    case Base(_) => 'B' as int
    case Typed(_, _) => 'E' as int
    case Sent(_, _) => 'T' as int
  }

  /** Two 32-bit sizes in one number. */
  function Sizes(columns: nat, rows: nat): nat { columns % U32 * U32 + rows % U32 }

  function Data(r: Record): Bytes {
    match r
    case Address(b) => b
    case Note(b) => b
    case SeqReserved(n) => Number(n)
    case StateReserved(n) => Number(n)
    case Front(n) => Number(n)
    case Latest(n) => Number(n)
    case Base(n) => Number(n)
    case Screen(s) =>
      Number(s.num) + Number(s.parent) + Number(Sizes(s.columns, s.rows)) + Number(s.scrollIndex) + s.diff
    case Typed(i, e) =>
      Number(i) + (if e.columns > 0 then [RESIZE] + Number(Sizes(e.columns, e.rows)) else [KEYS] + e.keys)
    case Sent(n, events) => Number(n) + Number(events)
  }

  function Encode(r: Record): Bytes { [Type(r)] + BigEndian(|Data(r)|, 4) + Data(r) }

  function EncodeAll(rs: seq<Record>): Bytes {
    if rs == [] then [] else EncodeAll(rs[..|rs| - 1]) + Encode(Last(rs))
  }

  /** What a record says as it is read, or None when it is damaged. */
  function Decode(kind: Byte, d: Bytes): Option<Record> {
    if kind == 'A' as int then (if d == [] || |d| > MAX_ADDRESS then None else Some(Address(d)))
    else if kind == 'N' as int then Some(Note(d))
    else if kind == 'Q' as int then (if |d| == 8 then Some(SeqReserved(FromBigEndian(d))) else None)
    else if kind == 'F' as int then (if |d| == 8 then Some(Front(FromBigEndian(d))) else None)
    else if kind == 'L' as int then (if |d| == 8 then Some(Latest(FromBigEndian(d))) else None)
    else if kind == 'M' as int then (if |d| == 8 then Some(StateReserved(FromBigEndian(d))) else None)
    else if kind == 'B' as int then (if |d| == 8 then Some(Base(FromBigEndian(d))) else None)
    else if kind == 'E' as int then (if |d| >= 9 then Some(Typed(FromBigEndian(d[..8]), DecodeEvent(d[8], d[9..]))) else None)
    else if kind == 'T' as int then (if |d| == 16 then Some(Sent(FromBigEndian(d[..8]), FromBigEndian(d[8..]))) else None)
    else if kind == 'S' as int then (if |d| >= 32 then Some(Screen(DecodeState(d))) else None)
    else None
  }

  /** Neither keys nor a size leaves an event without either. */
  function DecodeEvent(kind: Byte, d: Bytes): UserEvent {
    if kind == KEYS then UserEvent(d, 0, 0)
    else if kind == RESIZE && |d| == 8 then
      var size := FromBigEndian(d);
      UserEvent([], S.ClampSize(size / U32), S.ClampSize(size % U32))
    else UserEvent([], 0, 0)
  }

  function DecodeState(d: Bytes): ReceivedState
    requires |d| >= 32
  {
    var size := FromBigEndian(d[16..24]);
    ReceivedState(FromBigEndian(d[..8]), FromBigEndian(d[8..16]), d[32..],
                  S.ClampSize(size / U32), S.ClampSize(size % U32), FromBigEndian(d[24..32]))
  }

  /** Numbers that fit their fields, and a length that fits its own. */
  predicate Fits(r: Record) {
    && |Data(r)| < U32
    && match r
       case Address(b) => 0 < |b| <= MAX_ADDRESS
       case Note(_) => true
       case SeqReserved(n) => n < U64
       case StateReserved(n) => n < U64
       case Front(n) => n < U64
       case Latest(n) => n < U64
       case Base(n) => n < U64
       case Screen(s) => s.num < U64 && s.parent < U64 && s.scrollIndex < U64 && s.columns < U32 && s.rows < U32
       case Typed(i, e) => i < U64 && (if e.columns == 0 then e.rows == 0 else e.keys == [] && e.columns < U32 && e.rows < U32)
       case Sent(n, events) => n < U64 && events < U64
  }

  /** Sizes a terminal can have come back as they are. */
  predicate SizesKept(r: Record) {
    match r
    case Screen(s) => 1 <= s.columns <= 4096 && 1 <= s.rows <= 4096
    case Typed(_, e) => e.columns > 0 ==> e.columns <= 4096 && 1 <= e.rows <= 4096
    case _ => true
  }

  function AsRead(r: Record): Record {
    match r
    case Screen(s) => Screen(s.(columns := S.ClampSize(s.columns), rows := S.ClampSize(s.rows)))
    case Typed(i, e) =>
      if e.columns > 0 then Typed(i, e.(columns := S.ClampSize(e.columns), rows := S.ClampSize(e.rows))) else r
    case _ => r
  }

  lemma SizesRoundTrip(columns: nat, rows: nat)
    requires columns < U32 && rows < U32
    ensures Sizes(columns, rows) < U64 && Sizes(columns, rows) / U32 == columns && Sizes(columns, rows) % U32 == rows
  {
  }

  lemma DecodeScreen(s: ReceivedState)
    requires Fits(Screen(s))
    ensures Decode('S' as int, Data(Screen(s))) == Some(AsRead(Screen(s)))
  {
    var d := Data(Screen(s));
    hide Number, Sizes, FromBigEndian;
    NumberRoundTrip(s.num);
    NumberRoundTrip(s.parent);
    SizesRoundTrip(s.columns, s.rows);
    NumberRoundTrip(Sizes(s.columns, s.rows));
    NumberRoundTrip(s.scrollIndex);
    assert d[..8] == Number(s.num) && d[8..16] == Number(s.parent);
    assert d[16..24] == Number(Sizes(s.columns, s.rows)) && d[24..32] == Number(s.scrollIndex) && d[32..] == s.diff;
  }

  lemma DecodeTyped(i: nat, e: UserEvent)
    requires Fits(Typed(i, e))
    ensures Decode('E' as int, Data(Typed(i, e))) == Some(AsRead(Typed(i, e)))
  {
    var d := Data(Typed(i, e));
    hide Number, Sizes, FromBigEndian;
    NumberRoundTrip(i);
    assert d[..8] == Number(i);
    if e.columns > 0 {
      SizesRoundTrip(e.columns, e.rows);
      NumberRoundTrip(Sizes(e.columns, e.rows));
      assert d[8] == RESIZE && d[9..] == Number(Sizes(e.columns, e.rows));
    } else {
      assert d[8] == KEYS && d[9..] == e.keys;
    }
  }

  /** A record comes back as it was written, but for sizes beyond what a terminal can have. */
  lemma DecodeData(r: Record)
    requires Fits(r)
    ensures Decode(Type(r), Data(r)) == Some(AsRead(r))
  {
    hide Number, FromBigEndian, DecodeEvent, DecodeState;
    match r
    case Screen(s) => DecodeScreen(s);
    case Typed(i, e) => DecodeTyped(i, e);
    case Sent(n, events) =>
      NumberRoundTrip(n);
      NumberRoundTrip(events);
      assert Data(r)[..8] == Number(n) && Data(r)[8..] == Number(events);
    case SeqReserved(n) => NumberRoundTrip(n);
    case StateReserved(n) => NumberRoundTrip(n);
    case Front(n) => NumberRoundTrip(n);
    case Latest(n) => NumberRoundTrip(n);
    case Base(n) => NumberRoundTrip(n);
    case _ =>
  }

  /** A record comes back the same exactly when its sizes are kept. */
  lemma RecordRoundTrip(r: Record)
    requires Fits(r)
    ensures Decode(Type(r), Data(r)) == Some(r) <==> SizesKept(r)
  {
    DecodeData(r);
    hide Decode, Data, Type, Fits;
  }

  // --- The whole file ---

  datatype Journal = Journal(address: Option<Bytes>, note: Bytes, seqReserved: nat, sender: S.Saved, screens: R.Saved)

  const NOTHING_READ := Journal(None, [], 0, S.NOTHING_SAVED, R.Saved(map[], 0))

  function Apply(j: Journal, r: Record): Journal {
    match r
    case Address(b) => j.(address := Some(b))
    case Note(b) => j.(note := b)
    case SeqReserved(n) => j.(seqReserved := n)
    case Screen(s) => j.(screens := j.screens.(states := j.screens.states[s.num := s]))
    case Latest(n) => j.(screens := j.screens.(latest := n))
    case _ => j.(sender := S.ApplyRecord(j.sender, r))
  }

  function ApplyAll(rs: seq<Record>): Journal {
    if rs == [] then NOTHING_READ else Apply(ApplyAll(rs[..|rs| - 1]), Last(rs))
  }

  /** The length a record says it has. */
  function LengthAt(data: Bytes, pos: nat): nat
    requires pos + 5 <= |data|
  {
    FromBigEndian(data[pos + 1..pos + 5])
  }

  /** The record there, if it is whole and not damaged. */
  function RecordAt(data: Bytes, pos: nat): Option<Record>
    requires pos + 5 <= |data| && LengthAt(data, pos) <= |data| - pos - 5
  {
    Decode(data[pos], data[pos + 5..pos + 5 + LengthAt(data, pos)])
  }

  /** What reading on from a position makes of the file: a record cut short ends it, a damaged one spoils it. */
  function ReadFrom(data: Bytes, pos: nat, j: Journal): Option<Journal>
    decreases |data| - pos
  {
    if pos + 5 > |data| || LengthAt(data, pos) > |data| - pos - 5 then Some(j)
    else
      match RecordAt(data, pos)
      case None => None
      case Some(r) => ReadFrom(data, pos + 5 + LengthAt(data, pos), Apply(j, r))
  }

  predicate Usable(j: Journal) {
    j.address.Some? && j.seqReserved > 0 && j.sender.stateReserved > 0 && j.screens.latest in j.screens.states
  }

  function Read(data: Bytes): Option<Journal> {
    if |data| > MAX_FILE then None
    else
      var j := ReadFrom(data, 0, NOTHING_READ);
      if j.Some? && Usable(j.value) then j else None
  }

  class Reader {
    var address: Option<Bytes>
    var note: Bytes
    var seqReserved: nat
    var sender: S.Saved
    var screens: R.Saved

    ghost function State(): Journal
      reads this
    {
      Journal(address, note, seqReserved, sender, screens)
    }

    constructor ()
      ensures State() == NOTHING_READ
    {
      address, note, seqReserved, sender, screens := None, [], 0, S.NOTHING_SAVED, R.Saved(map[], 0);
    }

    method Take(r: Record)
      modifies this
      ensures State() == Apply(old(State()), r)
    {
      match r
      case Address(b) => address := Some(b);
      case Note(b) => note := b;
      case SeqReserved(n) => seqReserved := n;
      case Screen(s) => screens := screens.(states := screens.states[s.num := s]);
      case Latest(n) => screens := screens.(latest := n);
      case _ => sender := S.ApplyRecord(sender, r);
    }

    method ReadJournal(data: Bytes) returns (ok: bool)
      requires State() == NOTHING_READ
      modifies this
      ensures ok <==> Read(data).Some?
      ensures ok ==> Read(data) == Some(State())
    {
      if |data| > MAX_FILE {
        return false;
      }
      hide Apply, LengthAt, RecordAt;
      ghost var all := ReadFrom(data, 0, NOTHING_READ);
      var pos := 0;
      while pos + 5 <= |data|
        invariant 0 <= pos <= |data|
        invariant ReadFrom(data, pos, State()) == all
        decreases |data| - pos
      {
        var length := LengthAt(data, pos);
        if length > |data| - pos - 5 {
          break;
        }
        var r := RecordAt(data, pos);
        if r == None {
          return false;
        }
        Take(r.value);
        pos := pos + 5 + length;
      }
      ok := address.Some? && seqReserved > 0 && sender.stateReserved > 0 && screens.latest in screens.states;
    }
  }

  // --- A tail cut anywhere ---

  function AllAsRead(rs: seq<Record>): seq<Record> {
    seq(|rs|, i requires 0 <= i < |rs| => AsRead(rs[i]))
  }

  ghost predicate AllFit(rs: seq<Record>) {
    forall i :: 0 <= i < |rs| ==> Fits(rs[i])
  }

  lemma LengthRoundTrip(n: nat)
    requires n < U32
    ensures FromBigEndian(BigEndian(n, 4)) == n
  {
    PowSizes();
    BigEndianRoundTrip(n, 4);
  }

  lemma ReadPast(before: Bytes, r: Record, tail: Bytes, j: Journal)
    requires Fits(r)
    ensures ReadFrom(before + Encode(r) + tail, |before|, j)
         == ReadFrom(before + Encode(r) + tail, |before + Encode(r)|, Apply(j, AsRead(r)))
  {
    var data, pos, d := before + Encode(r) + tail, |before|, Data(r);
    hide Data, Decode, Apply, AsRead, FromBigEndian, BigEndian;
    LengthRoundTrip(|d|);
    DecodeData(r);
    Parts(before, Type(r), BigEndian(|d|, 4), d, tail);
  }

  lemma Parts(before: Bytes, kind: Byte, length: Bytes, d: Bytes, tail: Bytes)
    requires |length| == 4
    ensures var data, pos := before + ([kind] + length + d) + tail, |before|;
      |data| == pos + 5 + |d| + |tail| && data[pos] == kind && data[pos + 1..pos + 5] == length
      && data[pos + 5..pos + 5 + |d|] == d
  {
    var data, pos := before + ([kind] + length + d) + tail, |before|;
    assert data[pos..pos + 5 + |d|] == [kind] + length + d;
    assert data[pos + 1..pos + 5] == data[pos..pos + 5 + |d|][1..5];
    assert data[pos + 5..pos + 5 + |d|] == data[pos..pos + 5 + |d|][5..];
  }

  lemma LengthOf(kind: Byte, length: Bytes, d: Bytes)
    requires |length| == 4
    ensures ([kind] + length + d)[1..5] == length
  {
  }

  lemma PartOf(before: Bytes, e: Bytes, n: nat)
    requires 5 <= n <= |e|
    ensures (before + e[..n])[|before| + 1..|before| + 5] == e[1..5]
  {
    forall k | 0 <= k < 4 ensures (before + e[..n])[|before| + 1..|before| + 5][k] == e[1..5][k] {
      assert (before + e[..n])[|before| + 1 + k] == e[1 + k];
    }
  }

  lemma ReadTorn(before: Bytes, r: Record, n: nat, j: Journal)
    requires Fits(r) && n < |Encode(r)|
    ensures ReadFrom(before + Encode(r)[..n], |before|, j) == Some(j)
  {
    var data, pos, d := before + Encode(r)[..n], |before|, Data(r);
    hide Data, Decode, Apply, FromBigEndian, BigEndian;
    LengthRoundTrip(|d|);
    if n >= 5 {
      var e := Encode(r);
      LengthOf(Type(r), BigEndian(|d|, 4), d);
      assert e[1..5] == BigEndian(|d|, 4);
      hide Encode;
      PartOf(before, e, n);
    }
  }

  lemma AllAsReadSnoc(rs: seq<Record>, r: Record)
    ensures AllAsRead(rs + [r]) == AllAsRead(rs) + [AsRead(r)]
  {
  }

  lemma ApplyAllSnoc(rs: seq<Record>, r: Record)
    ensures ApplyAll(rs + [r]) == Apply(ApplyAll(rs), r)
  {
    assert (rs + [r])[..|rs|] == rs;
  }

  lemma Regroup(a: Bytes, b: Bytes, c: Bytes)
    ensures a + (b + c) == a + b + c
  {
  }

  lemma EncodeAllSnoc(rs: seq<Record>)
    requires rs != []
    ensures EncodeAll(rs) == EncodeAll(rs[..|rs| - 1]) + Encode(Last(rs))
  {
  }

  lemma EmptyIsNothing()
    ensures EncodeAll([]) == [] && AllAsRead([]) == [] && ApplyAll([]) == NOTHING_READ
  {
  }

  lemma {:induction false} ReadWhole(rs: seq<Record>, tail: Bytes)
    requires AllFit(rs)
    ensures ReadFrom(EncodeAll(rs) + tail, 0, NOTHING_READ)
         == ReadFrom(EncodeAll(rs) + tail, |EncodeAll(rs)|, ApplyAll(AllAsRead(rs)))
  {
    hide Encode, ReadFrom, ApplyAll, Apply, AsRead, AllAsRead, EncodeAll, Fits;
    if rs == [] {
      EmptyIsNothing();
    } else {
      var rest, r := rs[..|rs| - 1], Last(rs);
      assert rest + [r] == rs;
      var before := EncodeAll(rest);
      EncodeAllSnoc(rs);
      ReadWhole(rest, Encode(r) + tail);
      Regroup(before, Encode(r), tail);
      ReadPast(before, r, tail, ApplyAll(AllAsRead(rest)));
      AllAsReadSnoc(rest, r);
      ApplyAllSnoc(AllAsRead(rest), AsRead(r));
    }
  }

  /** Cut at any byte, the file reads as the records that are whole. */
  lemma {:induction false} ReadCut(rs: seq<Record>, n: nat) returns (whole: nat)
    requires AllFit(rs) && n <= |EncodeAll(rs)|
    ensures whole <= |rs| && |EncodeAll(rs[..whole])| <= n
    ensures whole < |rs| ==> n < |EncodeAll(rs[..whole + 1])|
    ensures ReadFrom(EncodeAll(rs)[..n], 0, NOTHING_READ) == Some(ApplyAll(AllAsRead(rs[..whole])))
    decreases |rs|
  {
    hide Encode, EncodeAll, ReadFrom, ApplyAll, AllAsRead, Fits;
    if n == |EncodeAll(rs)| {
      whole := |rs|;
      assert rs[..whole] == rs;
      ReadWhole(rs, []);
      ReadEnd(EncodeAll(rs), ApplyAll(AllAsRead(rs)));
      assert EncodeAll(rs) + [] == EncodeAll(rs) == EncodeAll(rs)[..n];
    } else if rs == [] {
      EmptyIsNothing();
      assert false;
    } else {
      var rest, r := rs[..|rs| - 1], Last(rs);
      var before := EncodeAll(rest);
      EncodeAllSnoc(rs);
      if n < |before| {
        whole := ReadCut(rest, n);
        assert rest[..whole] == rs[..whole] && rest[..whole + 1] == rs[..whole + 1];
        assert EncodeAll(rs)[..n] == before[..n];
      } else {
        whole := |rest|;
        assert rs[..whole] == rest && rs[..whole + 1] == rs;
        assert EncodeAll(rs)[..n] == before + Encode(r)[..n - |before|];
        ReadWhole(rest, Encode(r)[..n - |before|]);
        ReadTorn(before, r, n - |before|, ApplyAll(AllAsRead(rest)));
      }
    }
  }

  lemma ReadEnd(data: Bytes, j: Journal)
    ensures ReadFrom(data, |data|, j) == Some(j)
  {
  }

  // --- What a restart gets ---

  /** Reading the file gives the sender what replaying its records does. */
  lemma {:induction false} SenderIsReplay(rs: seq<Record>)
    ensures ApplyAll(rs).sender == S.Replay(rs)
  {
    if rs != [] {
      SenderIsReplay(rs[..|rs| - 1]);
    }
  }

  function ScreenRecords(states: map<nat, ReceivedState>, nums: seq<nat>): seq<Record>
    requires forall i :: 0 <= i < |nums| ==> nums[i] in states
  {
    seq(|nums|, i requires 0 <= i < |nums| => Screen(states[nums[i]]))
  }

  /** nums lists every state held, in whatever order. */
  ghost predicate Lists(states: map<nat, ReceivedState>, nums: seq<nat>) {
    && (forall n :: n in nums <==> n in states)
    && (forall n :: n in states ==> states[n].num == n)
  }

  /** The states listed. */
  function Listed(states: map<nat, ReceivedState>, nums: seq<nat>): map<nat, ReceivedState> {
    map n | n in nums && n in states :: states[n]
  }

  lemma ListedSnoc(states: map<nat, ReceivedState>, nums: seq<nat>, n: nat)
    requires n in states
    ensures Listed(states, nums + [n]) == Listed(states, nums)[n := states[n]]
  {
  }

  lemma {:induction false} ApplyScreens(rs: seq<Record>, states: map<nat, ReceivedState>, nums: seq<nat>)
    requires forall i :: 0 <= i < |nums| ==> nums[i] in states && states[nums[i]].num == nums[i]
    requires ApplyAll(rs).screens.states == map[]
    ensures ApplyAll(rs + ScreenRecords(states, nums))
         == ApplyAll(rs).(screens := R.Saved(Listed(states, nums), ApplyAll(rs).screens.latest))
  {
    if nums == [] {
      assert rs + ScreenRecords(states, nums) == rs;
    } else {
      hide ApplyAll, ScreenRecords, Listed;
      var rest, n := nums[..|nums| - 1], Last(nums);
      assert nums == rest + [n];
      ApplyScreens(rs, states, rest);
      ScreenRecordsSnoc(states, rest, n);
      ListedSnoc(states, rest, n);
      assert rs + (ScreenRecords(states, rest) + [Screen(states[n])]) == (rs + ScreenRecords(states, rest)) + [Screen(states[n])];
      ApplyAllSnoc(rs + ScreenRecords(states, rest), Screen(states[n]));
    }
  }

  lemma ScreenRecordsSnoc(states: map<nat, ReceivedState>, nums: seq<nat>, n: nat)
    requires (forall i :: 0 <= i < |nums| ==> nums[i] in states) && n in states
    ensures forall i :: 0 <= i < |nums + [n]| ==> (nums + [n])[i] in states
    ensures ScreenRecords(states, nums + [n]) == ScreenRecords(states, nums) + [Screen(states[n])]
  {
  }

  /** Records about typing leave the rest of the journal alone. */
  lemma {:induction false} ApplySenderRecords(rs: seq<Record>, more: seq<Record>)
    requires forall i :: 0 <= i < |more| ==> more[i].StateReserved? || more[i].Front? || more[i].Base? || more[i].Typed?
                                             || more[i].Sent?
    ensures ApplyAll(rs + more) == ApplyAll(rs).(sender := ApplyAll(rs + more).sender)
  {
    if more == [] {
      assert rs + more == rs;
    } else {
      var rest := more[..|more| - 1];
      ApplySenderRecords(rs, rest);
      assert rs + more == (rs + rest) + [Last(more)];
      ApplyAllSnoc(rs + rest, Last(more));
    }
  }

  function Head(address: Bytes, note: Bytes, seqReserved: nat): seq<Record> {
    [Address(address), Note(note), SeqReserved(seqReserved)]
  }

  function RestOf(address: Bytes, note: Bytes, seqReserved: nat, saved: R.Saved, nums: seq<nat>): S.Rest
    requires forall i :: 0 <= i < |nums| ==> nums[i] in saved.states
  {
    S.Rest(Head(address, note, seqReserved), ScreenRecords(saved.states, nums) + [Latest(saved.latest)])
  }

  lemma HeadReadsBack(address: Bytes, note: Bytes, seqReserved: nat)
    ensures ApplyAll(Head(address, note, seqReserved))
         == NOTHING_READ.(address := Some(address), note := note, seqReserved := seqReserved)
  {
    var head := Head(address, note, seqReserved);
    EmptyIsNothing();
    ApplyAllSnoc([], head[0]);
    ApplyAllSnoc([head[0]], head[1]);
    ApplyAllSnoc([head[0], head[1]], head[2]);
    assert [] + [head[0]] == [head[0]] && [head[0]] + [head[1]] == [head[0], head[1]] && [head[0], head[1]] + [head[2]] == head;
  }

  lemma SenderRecords(s: S.Sender)
    ensures var tail := [Base(s.eventBase)] + S.TypedRecords(s.events, s.eventBase) + S.SentRecords(s.sent);
      forall i :: 0 <= i < |tail| ==> tail[i].StateReserved? || tail[i].Front? || tail[i].Base? || tail[i].Typed?
                                      || tail[i].Sent?
  {
  }

  /** The journal written anew reads back as address, note, nonces and screens it was written from. */
  lemma RewrittenReadsBack(s: S.Sender, address: Bytes, note: Bytes, seqReserved: nat, saved: R.Saved, nums: seq<nat>)
    requires Lists(saved.states, nums)
    ensures var j := ApplyAll(S.RewriteRecords(s, RestOf(address, note, seqReserved, saved, nums)));
      j.address == Some(address) && j.note == note && j.seqReserved == seqReserved && j.screens == saved
  {
    var head := Head(address, note, seqReserved);
    HeadReadsBack(address, note, seqReserved);
    var reserved := [StateReserved(s.book.stateReserved), Front(s.book.journaledFront)];
    hide ApplyAll, Head, ScreenRecords, S.TypedRecords, S.SentRecords;
    ApplySenderRecords(head, reserved);
    ApplyScreens(head + reserved, saved.states, nums);
    assert (map n | n in nums && n in saved.states :: saved.states[n]) == saved.states;
    var screens := head + reserved + ScreenRecords(saved.states, nums);
    ApplyAllSnoc(screens, Latest(saved.latest));
    var tail := [Base(s.eventBase)] + S.TypedRecords(s.events, s.eventBase) + S.SentRecords(s.sent);
    SenderRecords(s);
    ApplySenderRecords(screens + [Latest(saved.latest)], tail);
    assert S.RewriteRecords(s, RestOf(address, note, seqReserved, saved, nums)) == screens + [Latest(saved.latest)] + tail;
  }

  lemma KeptAsRead(rs: seq<Record>)
    requires forall i :: 0 <= i < |rs| ==> SizesKept(rs[i])
    ensures AllAsRead(rs) == rs
  {
    forall i | 0 <= i < |rs| ensures AsRead(rs[i]) == rs[i] {
    }
  }

  /** A journal written anew, with any records appended since and cut at any byte after the rewrite, is read
    * as exactly the rewrite and the appended records that are whole. */
  lemma TornTail(written: seq<Record>, more: seq<Record>, n: nat) returns (whole: nat)
    requires AllFit(written + more) && forall i :: 0 <= i < |written + more| ==> SizesKept((written + more)[i])
    requires |EncodeAll(written)| <= n <= |EncodeAll(written + more)| && n <= MAX_FILE
    requires Usable(ApplyAll(written)) && forall i :: 0 <= i < |more| ==> !more[i].SeqReserved? && !more[i].StateReserved?
    requires forall i :: 0 <= i < |more| && more[i].Latest? ==>
      exists k :: 0 <= k < i && more[k].Screen? && more[k].state.num == more[i].latest
    ensures whole <= |more| && |EncodeAll(written + more[..whole])| <= n
    ensures whole < |more| ==> n < |EncodeAll(written + more[..whole + 1])|
    ensures Read(EncodeAll(written + more)[..n]) == Some(ApplyAll(written + more[..whole]))
  {
    var all := written + more;
    hide EncodeAll, ApplyAll, ReadFrom, AsRead, Fits, SizesKept;
    var k := ReadCut(all, n);
    if k < |written| {
      assert all[..k + 1] == written[..k + 1];
      EncodeGrows(written, k + 1);
      assert false;
    }
    whole := k - |written|;
    assert all[..k] == written + more[..whole];
    assert k < |all| ==> all[..k + 1] == written + more[..whole + 1];
    KeptAsRead(all[..k]);
    StaysUsable(written, more[..whole]);
  }

  lemma {:induction false} EncodeGrows(rs: seq<Record>, k: nat)
    requires k <= |rs|
    ensures |EncodeAll(rs[..k])| <= |EncodeAll(rs)|
    decreases |rs| - k
  {
    if k < |rs| {
      EncodeGrows(rs, k + 1);
      assert rs[..k + 1][..k] == rs[..k];
    } else {
      assert rs[..k] == rs;
    }
  }

  lemma {:induction false} ScreensArrive(rs: seq<Record>, more: seq<Record>, k: nat)
    requires k < |more| && more[k].Screen?
    ensures more[k].state.num in ApplyAll(rs + more).screens.states
    decreases |more|
  {
    var rest := more[..|more| - 1];
    assert rs + more == (rs + rest) + [Last(more)];
    ApplyAllSnoc(rs + rest, Last(more));
    if k < |rest| {
      ScreensArrive(rs, rest, k);
    }
  }

  lemma {:induction false} StaysUsable(rs: seq<Record>, more: seq<Record>)
    requires Usable(ApplyAll(rs)) && forall i :: 0 <= i < |more| ==> !more[i].SeqReserved? && !more[i].StateReserved?
    requires forall i :: 0 <= i < |more| && more[i].Latest? ==>
      exists k :: 0 <= k < i && more[k].Screen? && more[k].state.num == more[i].latest
    ensures Usable(ApplyAll(rs + more))
  {
    if more == [] {
      assert rs + more == rs;
    } else {
      var rest, r := more[..|more| - 1], Last(more);
      StaysUsable(rs, rest);
      assert rs + more == (rs + rest) + [r];
      ApplyAllSnoc(rs + rest, r);
      if r.Latest? {
        var k :| 0 <= k < |rest| && more[k].Screen? && more[k].state.num == r.latest;
        ScreensArrive(rs, rest, k);
      }
    }
  }
}
