/** The limits of the mosh client in numbers, and what happens at them. */
module MoshLimits {
  import opened MoshTypes
  import S = MoshSender
  import R = MoshReceiver
  import N = MoshNonces
  import F = MoshFragments
  import J = MoshJournal
  import T = Terminal
  import W = MoshWire
  import E = Endian

  // --- Reservations ---

  /** A rewrite reserves 65536 state numbers beyond the newest, while they fit 64 bits, and never gives any back. */
  lemma StatesReserved(s: S.Sender)
    requires s.sent != []
    ensures S.Reserve(s).book.stateReserved >= s.book.stateReserved
    ensures Last(s.sent).num + 65536 < U64 ==> S.Reserve(s).book.stateReserved >= Last(s.sent).num + 65536
    ensures Last(s.sent).num + 65536 < U64 && s.book.stateReserved <= Last(s.sent).num + 65536 ==>
      S.Reserve(s).book.stateReserved == Last(s.sent).num + 65536
  {
  }

  /** So of the new states only one in 65536 needs a rewrite: below the reservation a number is only appended. */
  lemma RewrittenSeldom(s: S.Sender, now: nat, num: nat, events: nat)
    ensures var o := S.AddSentState(s, now, num, events);
      && o.record == Some(Sent(num, events)) && o.again == None && o.out == None
      && (o.first.Some? <==> s.book.journaling && num != U64 - 1 && num >= s.book.stateReserved)
      && (o.first.Some? ==> o.first.value == S.Reserve(s))
  {
  }

  /** Once the packets go past the nonces reserved, the journal is written anew before the instruction, with the states as
    * they are sent and both reservations, and never otherwise. */
  lemma RewrittenBeforeSending(s: S.Sender, diff: seq<UserEvent>, num: nat, rewrite: bool)
    requires s.assumed < |s.sent|
    ensures var o := S.SendInstruction(s, diff, num, rewrite);
      && (o.again.Some? <==> rewrite && s.book.journaling)
      && (o.again.Some? ==>
            && o.again.value.sent == s.sent && o.again.value.events == s.events && o.again.value.eventBase == s.eventBase
            && o.again.value.book == S.Reserve(s).book == o.sender.book)
      && (o.again.None? ==> o.sender.book == s.book)
  {
  }

  /** A client that comes back goes on with the first number that was not reserved. */
  lemma NumbersGoOn(w: N.World, parts: N.Parts)
    requires N.Enabled(w, N.Resuming(parts))
    ensures var v := N.Next(w, N.Resuming(parts));
      v.nextSeq == N.Reservation(w.disk.value) && v.seqReserved == v.nextSeq + 65536 && v.used == w.used
  {
  }

  /** A rewrite leaves room for 65536 packets, which then go out without another. */
  lemma {:induction false} PacketsWithoutRewrite(w: N.World, run: seq<N.Action>)
    requires N.Runs(w, run) && (forall a :: a in run ==> a.Packet?) && w.nextSeq + |run| <= w.seqReserved
    ensures N.After(w, run).disk == w.disk && N.After(w, run).used == w.used + seq(|run|, i => w.nextSeq + i)
    decreases |run|
  {
    if run == [] {
      assert w.used + seq(0, i => w.nextSeq + i) == w.used;
    } else {
      var v := N.Next(w, run[0]);
      assert v == w.(nextSeq := w.nextSeq + 1, used := w.used + [w.nextSeq]);
      PacketsWithoutRewrite(v, run[1..]);
      assert [w.nextSeq] + seq(|run| - 1, i => w.nextSeq + 1 + i) == seq(|run|, i => w.nextSeq + i);
      assert (w.used + [w.nextSeq]) + seq(|run| - 1, i => w.nextSeq + 1 + i)
          == w.used + ([w.nextSeq] + seq(|run| - 1, i => w.nextSeq + 1 + i));
    }
  }

  lemma RewriteMakesRoom(w: N.World, parts: N.Parts)
    requires N.Enabled(w, N.Rewriting(parts))
    ensures N.Next(w, N.Rewriting(parts)).seqReserved >= w.nextSeq + 65536
    ensures N.Next(w, N.Rewriting(parts)).nextSeq == w.nextSeq
  {
  }

  // --- Screens ---

  /** States are only folded once there are 64 of them or 256 KiB of changes, from a state that is held. */
  lemma FoldsExactly<V>(vt: R.Vterm<V>, r: R.Receiver<V>, num: nat)
    requires R.TreeOk(r.states)
    ensures num in r.states && (|r.states| >= 64 || R.DiffBytes(r.states, r.states.Keys) >= 262144)
            ==> R.ThrowAwayUntil(vt, r, num) == r.(states := R.Fold(vt, r.states, num))
    ensures !(num in r.states && (|r.states| >= 64 || R.DiffBytes(r.states, r.states.Keys) >= 262144))
            ==> R.ThrowAwayUntil(vt, r, num) == r
  {
  }

  /** Of the lines scrolled off the newest 5000 are kept. */
  lemma FiveThousandLines<L>(lines: seq<L>)
    ensures T.Newest(lines) == if |lines| <= 5000 then lines else lines[|lines| - 5000..]
  {
  }

  // --- Fragments ---

  /** A part is 1162 bytes, which makes a datagram of 1200, and only the last may be less. */
  lemma {:induction false} PartsAreFull(id: nat, payload: Bytes, number: nat)
    ensures forall f :: f in F.FragmentsFrom(id, payload, number) ==>
      |f.part| <= 1162 && (!f.final ==> |f.part| == 1162) && (f.final && |payload| > 0 ==> |f.part| > 0)
      && 8 + 4 + |F.Encode(f)| + 16 <= 1200 && (!f.final ==> 8 + 4 + |F.Encode(f)| + 16 == 1200)
    decreases |payload|
  {
    var first, rest := F.FirstThenRest(id, payload, number);
    PartLength(payload);
    hide F.FragmentsFrom;
    FirstIs(id, payload, number);
    if rest != [] && number + 1 < F.LAST_NUMBER {
      PartsAreFull(id, rest, number + 1);
    }
    forall f | f in F.FragmentsFrom(id, payload, number)
      ensures 8 + 4 + |F.Encode(f)| + 16 == 38 + |f.part|
    {
    }
  }

  lemma PartLength(payload: Bytes)
    ensures |F.Part(payload)| == if |payload| <= 1162 then |payload| else 1162
  {
  }

  lemma FirstIs(id: nat, payload: Bytes, number: nat)
    ensures F.FragmentsFrom(id, payload, number) != [] && F.FragmentsFrom(id, payload, number)[0].part == F.Part(payload)
  {
  }

  lemma WholeParts(n: nat)
    requires n > 1162
    ensures (n + 1161) / 1162 == 1 + (n - 1162 + 1161) / 1162 && (n - 1162 + 1161) / 1162 >= 1
  {
  }

  /** There are as many as it takes, one at least and 32767 at most. */
  lemma {:induction false} CutInto(id: nat, payload: Bytes, number: nat)
    requires number < 32767
    ensures |F.FragmentsFrom(id, payload, number)| == Min(Max(1, (|payload| + 1161) / 1162), 32767 - number)
    decreases |payload|
  {
    var first, rest := F.FirstThenRest(id, payload, number);
    PartLength(payload);
    if |payload| > 1162 {
      WholeParts(|payload|);
      if number + 1 < 32767 {
        CutInto(id, payload[1162..], number + 1);
      }
    }
  }

  /** The final fragment fixes how many there are: what was held beyond it goes, and those before it are counted. */
  lemma FinalFixesCount(a: F.Assembly, f: F.Fragment)
    requires |a.fragments| == |a.arrived|
    ensures var p := F.Placed(a, f);
      && (f.final ==> p.total == |p.fragments| == |p.arrived| == f.number + 1 && p.count == F.CountTrue(p.arrived))
      && (!f.final ==> p.total == (if a.id == f.id then a.total else -1) && |p.fragments| > f.number)
  {
    hide F.CountTrue;
  }

  /** Fragments are let in up to number 8191. */
  lemma EightThousandFragments(a: F.Assembly, f: F.Fragment)
    requires |a.fragments| == |a.arrived|
    ensures f.number >= 8192 ==> F.Receive(a, f) == (a, None)
    ensures f.number < 8192 ==> F.Receive(a, f).0.id == f.id
  {
  }

  // --- What a journal may say ---

  /** States rise and cover no events that are not there, and no size is beyond what a terminal can have. */
  ghost predicate InOrder(s: S.Saved) {
    && (forall i, j :: 0 <= i < j < |s.sent| ==> s.sent[i].num < s.sent[j].num)
    && (forall i :: 0 <= i < |s.sent| ==> s.eventBase <= s.sent[i].events <= s.eventBase + |s.events|)
    && (forall i :: 0 <= i < |s.sent| ==> s.sent[i].timestamp == 0)
    && (forall i :: 0 <= i < |s.events| ==> SizeOk(s.events[i]))
  }

  predicate SizeOk(e: UserEvent) { (e.columns == 0 && e.rows == 0) || (1 <= e.columns <= 4096 && 1 <= e.rows <= 4096) }

  lemma RecordInOrder(s: S.Saved, r: Record)
    requires InOrder(s)
    ensures InOrder(S.ApplyRecord(s, r))
  {
  }

  /** Whatever the records are, and in whatever order, what they give the sender is in order. */
  lemma {:induction false} AnyJournalInOrder(file: seq<Record>)
    ensures InOrder(S.Replay(file))
  {
    hide InOrder, S.ApplyRecord;
    if file == [] {
      NothingInOrder();
    } else {
      AnyJournalInOrder(file[..|file| - 1]);
      RecordInOrder(S.Replay(file[..|file| - 1]), Last(file));
    }
  }

  lemma NothingInOrder()
    ensures InOrder(S.NOTHING_SAVED)
  {
  }

  lemma {:induction false} DroppedTo(sent: seq<SentState>, num: nat) returns (k: nat)
    ensures k <= |sent| && S.DropBelow(sent, num) == sent[k..] && (k < |sent| ==> sent[k].num >= num)
  {
    if sent != [] && sent[0].num < num {
      k := DroppedTo(sent[1..], num);
      k := k + 1;
    } else {
      k := 0;
      assert sent[0..] == sent;
    }
  }

  /** And the session that is resumed from them starts at the front they name, with states that rise from there and cover
    * events that are there. */
  lemma AnyJournalResumes(file: seq<Record>, latest: nat, now: nat)
    ensures var saved, s := S.Replay(file), S.Restore(S.Replay(file), latest, now);
      && s.sent != [] && s.sent[0].num == saved.front && s.assumed < |s.sent|
      && (forall i, j :: 0 <= i < j < |s.sent| ==> s.sent[i].num < s.sent[j].num)
      && (forall i :: 0 <= i < |s.sent| ==> s.eventBase <= s.sent[i].events <= s.Total())
      && (forall i :: 0 <= i < |s.sent| ==> s.sent[i].timestamp == 0)
      && s.events == saved.events && s.eventBase == saved.eventBase
  {
    AnyJournalInOrder(file);
    var k := DroppedTo(S.Replay(file).sent, S.Replay(file).front);
    hide S.Replay, S.DropBelow;
  }

  /** None of the states after the front is taken for received then, so typing is sent from the front on; and the server
    * counts as heard at that moment, with both deadlines over, as it does in a session just begun. */
  lemma ResumesFromTheFront(file: seq<Record>, latest: nat, now: nat, t: S.Timing)
    requires t.Rising() && t.First() >= t.timeout + 100
    ensures var s := S.Restore(S.Replay(file), latest, now);
      && s.sent != [] && S.Assumed(s.sent, t) == 0
      && s.timers == S.Start(now).timers == S.Timers(now, now, NEVER, now, false)
  {
    AnyJournalResumes(file, latest, now);
    var s := S.Restore(S.Replay(file), latest, now);
    assert t.LoopTime(1) >= t.First();
    hide S.Replay, S.DropBelow;
  }

  /** An event is read at the place its record names, among those there or right behind them; keys add to the keys there, a
    * size replaces the size. A new base begins anew, and a state counts from the front on, above the last, if its events
    * are there. */
  lemma TakenExactly(s: S.Saved, r: Record)
    ensures r.Typed? && s.eventBase <= r.index <= s.eventBase + |s.events| ==>
      var i, t := r.index - s.eventBase, S.ApplyRecord(s, r);
      && |t.events| == Max(|s.events|, i + 1) && t == s.(events := t.events)
      && (forall k :: 0 <= k < |s.events| && k != i ==> t.events[k] == s.events[k])
      && (var before := if i < |s.events| then s.events[i] else UserEvent([], 0, 0);
          t.events[i] == if r.event.columns == 0 then before.(keys := before.keys + r.event.keys)
                         else UserEvent(before.keys, Max(1, Min(r.event.columns, 4096)), Max(1, Min(r.event.rows, 4096))))
    ensures r.Typed? && (r.index < s.eventBase || r.index > s.eventBase + |s.events|) ==> S.ApplyRecord(s, r) == s
    ensures r.Base? ==> S.ApplyRecord(s, r) == S.Saved(s.stateReserved, s.front, r.base, [], [])
    ensures r.Sent? ==> (S.ApplyRecord(s, r) != s <==> r.num >= s.front && (s.sent == [] || r.num > Last(s.sent).num)
                                                       && s.eventBase <= r.events <= s.eventBase + |s.events|)
    ensures r.Sent? && S.ApplyRecord(s, r) != s ==>
      S.ApplyRecord(s, r) == s.(sent := s.sent + [SentState(r.num, r.events, 0)])
  {
  }

  /** Of the records that say the same thing the last one counts. */
  lemma {:induction false} LastRecordCounts(rs: seq<Record>, k: nat)
    requires k < |rs|
    ensures var j, r := J.ApplyAll(rs), rs[k];
      && (r.Address? && (forall i | k < i < |rs| :: !rs[i].Address?) ==> j.address == Some(r.address))
      && (r.Note? && (forall i | k < i < |rs| :: !rs[i].Note?) ==> j.note == r.note)
      && (r.SeqReserved? && (forall i | k < i < |rs| :: !rs[i].SeqReserved?) ==> j.seqReserved == r.seqReserved)
      && (r.Latest? && (forall i | k < i < |rs| :: !rs[i].Latest?) ==> j.screens.latest == r.latest)
      && (r.Screen? && (forall i | k < i < |rs| :: !(rs[i].Screen? && rs[i].state.num == r.state.num)) ==>
            r.state.num in j.screens.states && j.screens.states[r.state.num] == r.state)
  {
    hide S.ApplyRecord;
    if k < |rs| - 1 {
      LastRecordCounts(rs[..|rs| - 1], k);
    }
  }

  // --- Damage ---

  /** The records that spoil a journal: an address that is empty or longer than 128 bytes, a number that is not eight bytes
    * or two of them, an event without an index and a kind, a screen without its numbers, or a letter that is none. */
  lemma DamagedExactly(kind: Byte, d: Bytes)
    ensures J.Decode(kind, d) == None
       <==> match kind
            case 65 => d == [] || |d| > 128
            case 78 => false
            case 81 => |d| != 8
            case 70 => |d| != 8
            case 76 => |d| != 8
            case 77 => |d| != 8
            case 66 => |d| != 8
            case 69 => |d| < 9
            case 84 => |d| != 16
            case 83 => |d| < 32
            case _ => true
  {
    hide E.FromBigEndian;
  }

  /** An event of a kind that is neither keys nor a size is one without either, and so is a size that is not eight bytes. */
  lemma OtherEventsAreEmpty(d: Bytes)
    requires |d| >= 9 && d[8] != 75 && !(d[8] == 82 && |d| == 17)
    ensures var r := J.Decode(69, d); r.Some? && r.value == Typed(E.FromBigEndian(d[..8]), UserEvent([], 0, 0))
  {
    hide E.FromBigEndian;
  }

  /** A journal of more than 64 MiB is not read, nor one without an address, a reservation of either kind or its newest
    * screen. */
  lemma RefusedExactly(data: Bytes)
    ensures J.Read(data) == None
       <==> || |data| > 67108864
            || J.ReadFrom(data, 0, J.NOTHING_READ) == None
            || (var j := J.ReadFrom(data, 0, J.NOTHING_READ).value;
                || j.address == None || j.seqReserved == 0 || j.sender.stateReserved == 0
                || j.screens.latest !in j.screens.states)
  {
    hide J.ReadFrom;
  }

  /** Another version of the protocol than 2 ends the session, damage is ignored. */
  lemma VersionTwo(m: Option<W.Message>)
    ensures W.Judge(m).Taken? <==> m.Some? && m.value.version == 2
    ensures W.Judge(m).Ignored? <==> m.None?
    ensures m.Some? && m.value.version == 2 ==> W.Judge(m).message == m.value
  {
  }
}
