/** What every run of MoshSession keeps, whatever the clock does within a tick: numbers and counts that never change,
  * and a journal a restart can go on from. MoshTyping is about what the instructions then say. */
module MoshSafety {
  import opened MoshTypes
  import opened MoshSender
  import opened MoshSession

  // --- Reading a journal just written ---

  lemma ReplayAppend(file: seq<Record>, r: Record)
    ensures Replay(file + [r]) == ApplyRecord(Replay(file), r)
  {
    assert (file + [r])[..|file + [r]| - 1] == file;
  }

  lemma Regroup(file: seq<Record>, a: seq<Record>, r: Record)
    ensures file + (a + [r]) == (file + a) + [r]
  {
  }

  /** Records that are not the sender's change nothing of it. */
  lemma {:induction false} ReplayOthers(file: seq<Record>, others: seq<Record>)
    requires forall i :: 0 <= i < |others| ==> IsOther(others[i])
    ensures Replay(file + others) == Replay(file)
  {
    if others == [] {
      assert file + others == file;
    } else {
      var rest := others[..|others| - 1];
      ReplayOthers(file, rest);
      assert file + others == (file + rest) + [Last(others)];
      ReplayAppend(file + rest, Last(others));
    }
  }

  lemma TypedRecordsSnoc(events: seq<UserEvent>, e: UserEvent, base: nat)
    ensures TypedRecords(events + [e], base) == TypedRecords(events, base) + [Typed(base + |events|, e)]
  {
  }

  lemma ApplyNewEvent(saved: Saved, e: UserEvent)
    requires WellFormed(e)
    ensures ApplyRecord(saved, Typed(saved.eventBase + |saved.events|, e)) == saved.(events := saved.events + [e])
  {
    var grown := saved.events + [UserEvent([], 0, 0)];
    assert grown[|saved.events| := e] == saved.events + [e];
    assert [] + e.keys == e.keys;
  }

  lemma {:induction false} ReplayTyped(file: seq<Record>, events: seq<UserEvent>, base: nat)
    requires Replay(file).eventBase == base && Replay(file).events == []
    requires forall i :: 0 <= i < |events| ==> WellFormed(events[i])
    ensures Replay(file + TypedRecords(events, base)) == Replay(file).(events := events)
  {
    if events == [] {
      assert file + TypedRecords(events, base) == file;
    } else {
      hide ApplyRecord, TypedRecords, Replay, WellFormed;
      var rest, e := events[..|events| - 1], Last(events);
      assert rest + [e] == events;
      ReplayTyped(file, rest, base);
      ReplayOneMore(file, rest, e, base);
    }
  }

  lemma ReplayOneMore(file: seq<Record>, rest: seq<UserEvent>, e: UserEvent, base: nat)
    requires Replay(file).eventBase == base && WellFormed(e)
    requires Replay(file + TypedRecords(rest, base)) == Replay(file).(events := rest)
    ensures Replay(file + TypedRecords(rest + [e], base)) == Replay(file).(events := rest + [e])
  {
    hide ApplyRecord, TypedRecords, Replay, WellFormed;
    TypedRecordsSnoc(rest, e, base);
    Regroup(file, TypedRecords(rest, base), Typed(base + |rest|, e));
    ReplayAppend(file + TypedRecords(rest, base), Typed(base + |rest|, e));
    ApplyNewEvent(Replay(file).(events := rest), e);
  }

  function Timeless(sent: seq<SentState>): seq<SentState> {
    seq(|sent|, i requires 0 <= i < |sent| => sent[i].(timestamp := 0))
  }

  lemma SentRecordsSnoc(sent: seq<SentState>, s: SentState)
    ensures SentRecords(sent + [s]) == SentRecords(sent) + [Sent(s.num, s.events)]
    ensures Timeless(sent + [s]) == Timeless(sent) + [s.(timestamp := 0)]
  {
  }

  lemma ApplyNewSent(saved: Saved, s: SentState)
    requires saved.sent == [] || Last(saved.sent).num < s.num
    requires s.num >= saved.front && saved.eventBase <= s.events <= saved.eventBase + |saved.events|
    ensures ApplyRecord(saved, Sent(s.num, s.events)) == saved.(sent := saved.sent + [s.(timestamp := 0)])
  {
  }

  lemma LastTimeless(sent: seq<SentState>)
    requires sent != []
    ensures Timeless(sent) != [] && Last(Timeless(sent)).num == Last(sent).num
  {
  }

  predicate NumbersRise(sent: seq<SentState>) { forall i, j :: 0 <= i < j < |sent| ==> sent[i].num < sent[j].num }

  /** The reader takes these states, when their numbers rise. */
  predicate Takes(saved: Saved, s: SentState) {
    s.num >= saved.front && saved.eventBase <= s.events <= saved.eventBase + |saved.events|
  }

  predicate TakesAll(saved: Saved, sent: seq<SentState>) { forall i :: 0 <= i < |sent| ==> Takes(saved, sent[i]) }

  lemma AllButLast(saved: Saved, rest: seq<SentState>, s: SentState)
    requires NumbersRise(rest + [s]) && TakesAll(saved, rest + [s])
    ensures NumbersRise(rest) && TakesAll(saved, rest) && Takes(saved, s) && (rest != [] ==> Last(rest).num < s.num)
  {
    var sent := rest + [s];
    assert forall i :: 0 <= i < |rest| ==> rest[i] == sent[i];
    assert sent[|rest|] == s;
  }

  lemma {:induction false} ReplaySent(file: seq<Record>, sent: seq<SentState>)
    requires Replay(file).sent == [] && NumbersRise(sent) && TakesAll(Replay(file), sent)
    ensures Replay(file + SentRecords(sent)) == Replay(file).(sent := Timeless(sent))
  {
    hide SentRecords, Replay, Timeless, NumbersRise, TakesAll, Takes;
    if sent == [] {
      EmptySent(file);
    } else {
      var rest, s := sent[..|sent| - 1], Last(sent);
      assert rest + [s] == sent;
      AllButLast(Replay(file), rest, s);
      ReplaySent(file, rest);
      ReplayOneSent(file, rest, s);
    }
  }

  lemma EmptySent(file: seq<Record>)
    ensures file + SentRecords([]) == file && Timeless([]) == []
  {
  }

  lemma ReplayOneSent(file: seq<Record>, rest: seq<SentState>, s: SentState)
    requires Replay(file + SentRecords(rest)) == Replay(file).(sent := Timeless(rest))
    requires (rest != [] ==> Last(rest).num < s.num) && Takes(Replay(file), s)
    ensures Replay(file + SentRecords(rest + [s])) == Replay(file).(sent := Timeless(rest + [s]))
  {
    hide SentRecords, Replay, ApplyRecord, Timeless;
    SentRecordsSnoc(rest, s);
    Regroup(file, SentRecords(rest), Sent(s.num, s.events));
    ReplayAppend(file + SentRecords(rest), Sent(s.num, s.events));
    if rest == [] {
      EmptySent(file);
    } else {
      LastTimeless(rest);
    }
    ApplyNewSent(Replay(file).(sent := Timeless(rest)), s);
  }

  lemma ReplayHead(reserved: nat, front: nat, base: nat, rest: Rest)
    requires Others(rest)
    ensures Replay(RewriteHead(reserved, front, base, rest)) == Saved(reserved, front, base, [], [])
  {
    assert [] + rest.head == rest.head;
    ReplayOthers([], rest.head);
    ReplayAppend(rest.head, StateReserved(reserved));
    var f1 := rest.head + [StateReserved(reserved)];
    ReplayAppend(f1, Front(front));
    var f2 := f1 + [Front(front)];
    assert f2 == rest.head + [StateReserved(reserved), Front(front)];
    ReplayOthers(f2, rest.screens);
    ReplayAppend(f2 + rest.screens, Base(base));
  }

  /** Reading the journal right after it was written anew gives back the events, the front and every state sent. */
  lemma RewriteRoundTrip(s: Sender, rest: Rest)
    requires Others(rest) && s.sent != []
    requires forall i :: 0 <= i < |s.events| ==> WellFormed(s.events[i])
    requires forall i, j :: 0 <= i < j < |s.sent| ==> s.sent[i].num < s.sent[j].num
    requires forall i :: 0 <= i < |s.sent| ==> s.eventBase <= s.sent[i].events <= s.Total()
    ensures Replay(RewriteRecords(Reserve(s), rest))
         == Saved(Reserve(s).book.stateReserved, s.sent[0].num, s.eventBase, s.events, Timeless(s.sent))
  {
    hide Wrap;
    var r := Reserve(s);
    ReplayHead(r.book.stateReserved, r.book.journaledFront, s.eventBase, rest);
    var head := RewriteHead(r.book.stateReserved, r.book.journaledFront, s.eventBase, rest);
    ReplayTyped(head, s.events, s.eventBase);
    ReplaySent(head + TypedRecords(s.events, s.eventBase), s.sent);
  }

  // --- The states sent ---

  lemma EventsMonotone(sent: seq<SentState>, counts: map<nat, nat>, typed: seq<UserEvent>, i: nat, j: nat)
    requires SentOk(sent, counts) && CountsOk(counts, typed) && i <= j < |sent|
    ensures sent[i].events <= sent[j].events <= |typed|
  {
    if i < j {
      assert Before(sent[i], sent[j]);
    }
  }

  /** Adding a state on top, with the middle one culled when there are too many, keeps first and last. */
  lemma AddOnTop(sent: seq<SentState>, counts: map<nat, nat>, s: SentState)
    requires SentOk(sent, counts)
    requires s.num > Last(sent).num || s.num == Last(sent).num == SHUTDOWN
    requires s.num in counts ==> counts[s.num] == s.events
    ensures SentOk(Cull(sent + [s]), counts[s.num := s.events])
    ensures Cull(sent + [s])[0] == sent[0]
    ensures forall i :: 0 <= i < |Cull(sent + [s])| ==> Cull(sent + [s])[i] in sent + [s]
  {
    var all, c := sent + [s], counts[s.num := s.events];
    forall i, j | 0 <= i < j < |all| ensures Before(all[i], all[j]) {
      if j == |sent| {
        assert i < |sent| - 1 ==> Before(sent[i], Last(sent));
      }
    }
    assert forall i :: 0 <= i < |sent| ==> sent[i].num in counts;
    assert SentOk(all, c);
    var kept := Cull(all);
    if |all| > MAX_SENT_STATES {
      var k := |all| - 16;
      assert forall i :: 0 <= i < |kept| ==> kept[i] == all[if i < k then i else i + 1];
      assert Last(kept) == s;
    }
  }

  lemma AddOnTopTimes(sent: seq<SentState>, s: SentState, now: nat)
    requires sent != [] && TimesOk(sent, now) && s.timestamp == now
    ensures TimesOk(Cull(sent + [s]), now)
  {
    var all := sent + [s];
    assert TimesOk(all, now);
    if |all| > MAX_SENT_STATES {
      var k := |all| - 16;
      assert forall i :: 0 <= i < |Cull(all)| ==> Cull(all)[i] == all[if i < k then i else i + 1];
    }
  }

  // --- Sending ---

  /** A number to announce: it stands for everything typed, and no other number is above it. */
  ghost predicate Announces(num: nat, s: Sender, counts: map<nat, nat>, typed: seq<UserEvent>) {
    && num <= SHUTDOWN
    && (forall n :: n in counts ==> n <= num)
    && (num in counts ==> counts[num] == |typed|)
    && (num == SHUTDOWN ==> s.ending.shutdownInProgress)
  }

  lemma CountsGrow(counts: map<nat, nat>, typed: seq<UserEvent>, s: Sender, num: nat)
    requires CountsOk(counts, typed) && Announces(num, s, counts, typed)
    ensures CountsOk(counts[num := |typed|], typed)
  {
  }

  lemma NextNumAnnounces(s: Sender, counts: map<nat, nat>, typed: seq<UserEvent>, now: nat)
    requires CountsOk(counts, typed) && ClientOk(s, counts, typed, now)
    requires s.ending.shutdownInProgress || NextNum(s) < SHUTDOWN
    ensures Announces(NextNum(s), s, counts, typed)
    ensures NextNum(s) > Last(s.sent).num || NextNum(s) == Last(s.sent).num == SHUTDOWN
  {
    assert Last(s.sent).num in counts;
  }

  lemma AddSentStateOk(s: Sender, counts: map<nat, nat>, typed: seq<UserEvent>, now: nat, num: nat)
    requires CountsOk(counts, typed) && ClientOk(s, counts, typed, now)
    requires Announces(num, s, counts, typed) && (num > Last(s.sent).num || num == Last(s.sent).num == SHUTDOWN)
    ensures ClientOk(AddSentState(s, now, num, s.Total()).sender, counts[num := |typed|], typed, now)
    ensures AddSentState(s, now, num, s.Total()).sender.sent[0] == s.sent[0]
    ensures s.Total() == |typed|
  {
    hide Wrap, Cull;
    var n := SentState(num, s.Total(), now);
    AddOnTop(s.sent, counts, n);
    AddOnTopTimes(s.sent, n, now);
  }

  lemma ResendOk(s: Sender, counts: map<nat, nat>, typed: seq<UserEvent>, now: nat)
    requires CountsOk(counts, typed) && ClientOk(s, counts, typed, now) && Last(s.sent).events == |typed|
    ensures ClientOk(s.(sent := s.sent[|s.sent| - 1 := Last(s.sent).(timestamp := now)]),
                     counts[Last(s.sent).num := |typed|], typed, now)
  {
    var sent := s.sent[|s.sent| - 1 := Last(s.sent).(timestamp := now)];
    assert counts[Last(s.sent).num := |typed|] == counts;
    assert forall i :: 0 <= i < |sent| ==> sent[i].num == s.sent[i].num && sent[i].events == s.sent[i].events;
    assert forall i :: 0 <= i < |sent| - 1 ==> sent[i] == s.sent[i];
  }

  lemma DiffIsTyped(s: Sender, counts: map<nat, nat>, typed: seq<UserEvent>, now: nat, i: nat)
    requires CountsOk(counts, typed) && ClientOk(s, counts, typed, now) && i < |s.sent|
    ensures s.sent[i].events <= |typed|
    ensures UserDiff(s, s.sent[i].events) == typed[s.sent[i].events..]
  {
    EventsMonotone(s.sent, counts, typed, 0, i);
    assert typed[s.eventBase..][s.sent[i].events - s.eventBase..] == typed[s.sent[i].events..];
  }

  /** What is true of an outcome that sends: every clause is about the counts with the new number added. */
  ghost predicate SendsOk(s: Sender, o: Outcome, counts: map<nat, nat>, typed: seq<UserEvent>, now: nat) {
    && o.out.Some? && s.sent != [] && o.sender.sent != []
    && Announces(o.out.value.newNum, s, counts, typed)
    && ClientOk(o.sender, counts[o.out.value.newNum := |typed|], typed, now)
    && o.out.value.throwawayNum == s.sent[0].num == o.sender.sent[0].num
  }

  /** Agreeing in everything ClientOk is about. */
  ghost predicate SameState(a: Sender, b: Sender) {
    && a.sent == b.sent && a.events == b.events && a.eventBase == b.eventBase
    && a.ending.shutdownInProgress == b.ending.shutdownInProgress
  }

  lemma SendInstructionOk(a: Sender, diff: seq<UserEvent>, num: nat, rewrite: bool)
    requires a.assumed < |a.sent|
    ensures SameState(a, SendInstruction(a, diff, num, rewrite).sender)
    ensures SendInstruction(a, diff, num, rewrite).out
         == Some(Instruction(a.sent[a.assumed].num, num, a.ackNum, a.sent[0].num, diff))
  {
    hide Wrap;
  }

  lemma SendEmptyAckOk(s: Sender, counts: map<nat, nat>, typed: seq<UserEvent>, now: nat, rewrite: bool)
    requires CountsOk(counts, typed) && ClientOk(s, counts, typed, now)
    requires s.ending.shutdownInProgress || NextNum(s) < SHUTDOWN
    requires s.assumed < |s.sent|
    ensures SendsOk(s, SendEmptyAck(s, now, rewrite), counts, typed, now)
  {
    var num := NextNum(s);
    NextNumAnnounces(s, counts, typed, now);
    AddSentStateOk(s, counts, typed, now, num);
    var a := AddSentState(s, now, num, s.Total()).sender;
    SendInstructionOk(a, [], num, rewrite);
    var o := SendEmptyAck(s, now, rewrite);
    hide Wrap, NextNum, AddSentState, SendInstruction;
    assert SameState(a, o.sender);
  }

  /** A state sent again only gets a new time; a new one goes on top. Either way everything known stays true. */
  lemma MarkSentOk(s: Sender, counts: map<nat, nat>, typed: seq<UserEvent>, now: nat)
    requires CountsOk(counts, typed) && ClientOk(s, counts, typed, now)
    requires s.ending.shutdownInProgress || NextNum(s) < SHUTDOWN
    requires s.assumed < |s.sent|
    ensures Announces(DataNum(s), s, counts, typed)
    ensures ClientOk(MarkSent(s, now, DataNum(s)).sender, counts[DataNum(s) := |typed|], typed, now)
    ensures MarkSent(s, now, DataNum(s)).sender.sent[0].num == s.sent[0].num
  {
    hide Cull;
    var num := DataNum(s);
    if num == Last(s.sent).num {
      hide Wrap;
      assert Last(s.sent).num in counts;
      ResendOk(s, counts, typed, now);
    } else {
      NextNumAnnounces(s, counts, typed, now);
      AddSentStateOk(s, counts, typed, now, num);
    }
  }

  lemma SendToReceiverOk(s: Sender, counts: map<nat, nat>, typed: seq<UserEvent>, now: nat, after: nat,
                         diff: seq<UserEvent>, rewrite: bool)
    requires CountsOk(counts, typed) && ClientOk(s, counts, typed, now)
    requires s.ending.shutdownInProgress || NextNum(s) < SHUTDOWN
    requires s.assumed < |s.sent|
    ensures SendsOk(s, SendToReceiver(s, diff, now, after, rewrite), counts, typed, now)
  {
    var num := DataNum(s);
    MarkSentOk(s, counts, typed, now);
    var a := MarkSent(s, now, num).sender;
    SendInstructionOk(a, diff, num, rewrite);
    var o := SendToReceiver(s, diff, now, after, rewrite);
    hide MarkSent, NextNum, Wrap, DataNum, SendInstruction;
    assert SameState(a, o.sender);
  }

  lemma TimersOk(s: Sender, counts: map<nat, nat>, typed: seq<UserEvent>, now: nat, t: Timing)
    requires CountsOk(counts, typed) && ClientOk(s, counts, typed, now)
    ensures ClientOk(CalculateTimers(s, t), counts, typed, now)
    ensures CalculateTimers(s, t).ending == s.ending && CalculateTimers(s, t).book == s.book
    ensures NextNum(CalculateTimers(s, t)) == NextNum(s)
  {
    EventsMonotone(s.sent, counts, typed, 0, 0);
    hide Assumed, AckDeadline, SendDeadline, Wrap;
    var s1 := DropServed(s.(assumed := Assumed(s.sent, t)));
    assert s1.events == typed[s1.eventBase..];
  }

  // --- The journal ---

  ghost predicate AllKnown(sent: seq<SentState>, saved: seq<SentState>) {
    forall i :: 0 <= i < |sent| ==> Known(saved, sent[i].num)
  }

  lemma TimelessOk(sent: seq<SentState>, counts: map<nat, nat>)
    requires SentOk(sent, counts)
    ensures SentOk(Timeless(sent), counts) && AllKnown(sent, Timeless(sent))
    ensures |Timeless(sent)| == |sent| && forall i :: 0 <= i < |sent| ==> Timeless(sent)[i].timestamp == 0
  {
    var saved := Timeless(sent);
    assert forall i :: 0 <= i < |sent| ==> saved[i].num == sent[i].num && saved[i].events == sent[i].events;
    forall i, j | 0 <= i < j < |saved| ensures Before(saved[i], saved[j]) {
      assert Before(sent[i], sent[j]);
    }
  }

  lemma RewriteSaved(s: Sender, counts: map<nat, nat>, typed: seq<UserEvent>, now: nat, rest: Rest)
    requires CountsOk(counts, typed) && ClientOk(s, counts, typed, now) && SHUTDOWN !in counts && Others(rest)
    ensures SavedOk(Replay(RewriteRecords(Reserve(s), rest)), counts, typed, s.sent[0].num)
    ensures AllKnown(s.sent, Replay(RewriteRecords(Reserve(s), rest)).sent)
  {
    hide RewriteRecords, Reserve, Timeless;
    forall i | 0 <= i < |s.sent| ensures s.eventBase <= s.sent[i].events <= s.Total() {
      EventsMonotone(s.sent, counts, typed, 0, i);
    }
    forall i, j | 0 <= i < j < |s.sent| ensures s.sent[i].num < s.sent[j].num {
      assert Before(s.sent[i], s.sent[j]) && s.sent[j].num in counts;
    }
    RewriteRoundTrip(s, rest);
    TimelessOk(s.sent, counts);
    assert Known(Timeless(s.sent), s.sent[0].num);
  }

  lemma AppendSaved(saved: Saved, counts: map<nat, nat>, typed: seq<UserEvent>, front: nat, num: nat)
    requires CountsOk(counts, typed) && SavedOk(saved, counts, typed, front)
    requires num > Last(saved.sent).num && num < SHUTDOWN
    ensures SavedOk(ApplyRecord(saved, Sent(num, |typed|)), counts[num := |typed|], typed, front)
    ensures ApplyRecord(saved, Sent(num, |typed|)).sent == saved.sent + [SentState(num, |typed|, 0)]
  {
    var k :| 0 <= k < |saved.sent| && saved.sent[k].num == front;
    EventsMonotone(saved.sent, counts, typed, k, |saved.sent| - 1);
    var s := SentState(num, |typed|, 0);
    forall i | 0 <= i < |saved.sent| ensures Before(saved.sent[i], s) {
      assert saved.sent[i].num in counts;
    }
    assert (saved.sent + [s])[k].num == front;
  }

  /** The writes of an operation that sends: a rewrite of the state it started from, the new number, a rewrite
    * of the state it ends in. */
  ghost predicate WritesOk(s: Sender, o: Outcome, typed: seq<UserEvent>) {
    && o.out.Some? && s.sent != []
    && (o.first.Some? ==> o.first.value == Reserve(s))
    && (o.record.Some? ==> o.record.value == Sent(o.out.value.newNum, |typed|)
                           && (o.out.value.newNum < SHUTDOWN ==> o.out.value.newNum > Last(s.sent).num))
    && (o.record.None? ==> o.out.value.newNum == Last(s.sent).num)
    && (o.again.Some? ==> exists a: Sender :: SameState(a, o.sender) && o.again.value == Reserve(a))
    && (forall i :: 0 <= i < |o.sender.sent| ==> o.sender.sent[i].num == o.out.value.newNum
                                                 || Known(s.sent, o.sender.sent[i].num))
    && o.sender.book.journaling == s.book.journaling
    && (o.sender.book.journaledFront == s.book.journaledFront || o.sender.book.journaledFront == s.sent[0].num)
    && o.sender.ending.shutdownInProgress == s.ending.shutdownInProgress
  }

  lemma KnownAfterCull(sent: seq<SentState>, s: SentState)
    ensures forall i :: 0 <= i < |Cull(sent + [s])| ==>
      Cull(sent + [s])[i].num == s.num || Known(sent, Cull(sent + [s])[i].num)
  {
    var all, kept := sent + [s], Cull(sent + [s]);
    var k := |all| - 16;
    forall i | 0 <= i < |kept| ensures kept[i].num == s.num || Known(sent, kept[i].num) {
      var j := if |all| > MAX_SENT_STATES && i >= k then i + 1 else i;
      assert kept[i] == all[j];
      assert j < |sent| ==> Known(sent, sent[j].num);
    }
  }

  lemma AddWrites(s: Sender, now: nat, num: nat, typed: seq<UserEvent>)
    requires s.sent != [] && s.Total() == |typed|
    ensures var o := AddSentState(s, now, num, s.Total());
      && (o.first.Some? ==> o.first.value == Reserve(s))
      && o.record == Some(Sent(num, |typed|))
      && (forall i :: 0 <= i < |o.sender.sent| ==> o.sender.sent[i].num == num || Known(s.sent, o.sender.sent[i].num))
      && (o.sender.book.journaledFront == s.book.journaledFront || o.sender.book.journaledFront == s.sent[0].num)
      && o.sender.ending == s.ending
  {
    hide Wrap, Cull;
    KnownAfterCull(s.sent, SentState(num, s.Total(), now));
  }

  lemma InstructionWrites(a: Sender, diff: seq<UserEvent>, num: nat, rewrite: bool)
    requires a.assumed < |a.sent|
    ensures var o := SendInstruction(a, diff, num, rewrite);
      && (o.again.Some? ==> exists b: Sender :: SameState(b, o.sender) && o.again.value == Reserve(b))
      && (o.sender.book.journaledFront == a.book.journaledFront || o.sender.book.journaledFront == a.sent[0].num)
  {
    hide Wrap;
    var tried := a.(ending := a.ending.(shutdownTries := a.ending.shutdownTries + if num == SHUTDOWN then 1 else 0));
    assert SameState(tried, SendInstruction(a, diff, num, rewrite).sender);
  }

  lemma SendEmptyAckWrites(s: Sender, counts: map<nat, nat>, typed: seq<UserEvent>, now: nat, rewrite: bool)
    requires CountsOk(counts, typed) && ClientOk(s, counts, typed, now) && s.assumed < |s.sent|
    requires s.ending.shutdownInProgress || NextNum(s) < SHUTDOWN
    ensures WritesOk(s, SendEmptyAck(s, now, rewrite), typed)
  {
    var num := NextNum(s);
    NextNumAnnounces(s, counts, typed, now);
    AddSentStateOk(s, counts, typed, now, num);
    AddWrites(s, now, num, typed);
    var a := AddSentState(s, now, num, s.Total()).sender;
    SendInstructionOk(a, [], num, rewrite);
    InstructionWrites(a, [], num, rewrite);
    hide Wrap, NextNum, AddSentState, SendInstruction;
    var o := SendEmptyAck(s, now, rewrite);
    var b := SendInstruction(a, [], num, rewrite);
    assert forall x: Sender :: SameState(x, b.sender) ==> SameState(x, o.sender);
  }

  lemma MarkWrites(s: Sender, counts: map<nat, nat>, typed: seq<UserEvent>, now: nat)
    requires CountsOk(counts, typed) && ClientOk(s, counts, typed, now) && s.assumed < |s.sent|
    requires s.ending.shutdownInProgress || NextNum(s) < SHUTDOWN
    ensures var o := MarkSent(s, now, DataNum(s));
      && (o.first.Some? ==> o.first.value == Reserve(s))
      && (o.record.Some? ==> o.record.value == Sent(DataNum(s), |typed|)
                             && (DataNum(s) < SHUTDOWN ==> DataNum(s) > Last(s.sent).num))
      && (o.record.None? ==> DataNum(s) == Last(s.sent).num)
      && (forall i :: 0 <= i < |o.sender.sent| ==> o.sender.sent[i].num == DataNum(s)
                                                   || Known(s.sent, o.sender.sent[i].num))
      && (o.sender.book.journaledFront == s.book.journaledFront || o.sender.book.journaledFront == s.sent[0].num)
      && o.sender.ending == s.ending && o.sender.sent[0].num == s.sent[0].num
  {
    hide Cull;
    var num := DataNum(s);
    if num == Last(s.sent).num {
      hide Wrap;
      var sent := s.sent[|s.sent| - 1 := Last(s.sent).(timestamp := now)];
      forall i | 0 <= i < |sent| ensures Known(s.sent, sent[i].num) {
        assert sent[i].num == s.sent[i].num;
      }
    } else {
      NextNumAnnounces(s, counts, typed, now);
      AddSentStateOk(s, counts, typed, now, num);
      AddWrites(s, now, num, typed);
      hide Wrap, NextNum, AddSentState;
    }
  }

  lemma SendToReceiverWrites(s: Sender, diff: seq<UserEvent>, counts: map<nat, nat>, typed: seq<UserEvent>, now: nat,
                             after: nat, rewrite: bool)
    requires CountsOk(counts, typed) && ClientOk(s, counts, typed, now) && s.assumed < |s.sent|
    requires s.ending.shutdownInProgress || NextNum(s) < SHUTDOWN
    ensures WritesOk(s, SendToReceiver(s, diff, now, after, rewrite), typed)
  {
    var num := DataNum(s);
    MarkWrites(s, counts, typed, now);
    var a := MarkSent(s, now, num).sender;
    SendInstructionOk(a, diff, num, rewrite);
    InstructionWrites(a, diff, num, rewrite);
    hide Wrap, NextNum, MarkSent, SendInstruction, DataNum;
    var o := SendToReceiver(s, diff, now, after, rewrite);
    var b := SendInstruction(a, diff, num, rewrite);
    assert forall x: Sender :: SameState(x, b.sender) ==> SameState(x, o.sender);
  }

  // --- A tick ---

  lemma TickSendsOk(s: Sender, counts: map<nat, nat>, typed: seq<UserEvent>, t: Timing, rewrite: bool)
    requires CountsOk(counts, typed) && ClientOk(s, counts, typed, t.mark)
    requires s.ending.shutdownInProgress || NextNum(s) < SHUTDOWN
    requires s.assumed < |s.sent|
    ensures var o := TickSends(s, t, rewrite);
      if o.out.Some? then SendsOk(s, o, counts, typed, t.mark) && WritesOk(s, o, typed)
      else o == Unwritten(o.sender) && SameState(s, o.sender) && o.sender.book == s.book
  {
    hide NextNum, Wrap, SendEmptyAck, SendToReceiver, UserDiff, SendsOk, WritesOk, ClientOk, CountsOk;
    var diff := UserDiff(s, s.sent[s.assumed].events);
    SendToReceiverOk(s, counts, typed, t.mark, t.after, diff, rewrite);
    SendToReceiverWrites(s, diff, counts, typed, t.mark, t.after, rewrite);
    SendsSomething(s, SendToReceiver(s, diff, t.mark, t.after, rewrite), counts, typed, t.mark);
    SendEmptyAckOk(s, counts, typed, t.mark, rewrite);
    SendEmptyAckWrites(s, counts, typed, t.mark, rewrite);
    SendsSomething(s, SendEmptyAck(s, t.mark, rewrite), counts, typed, t.mark);
  }

  lemma SendsLater(s: Sender, o: Outcome, counts: map<nat, nat>, typed: seq<UserEvent>, now: nat, later: nat)
    requires SendsOk(s, o, counts, typed, now) && now <= later
    ensures SendsOk(s, o, counts, typed, later)
  {
  }

  lemma SendsSomething(s: Sender, o: Outcome, counts: map<nat, nat>, typed: seq<UserEvent>, now: nat)
    requires SendsOk(s, o, counts, typed, now)
    ensures o.out.Some?
  {
  }

  /** What a tick leaves, whatever the readings of its clock: what it sends announces a number for everything typed, and
    * the client stays sound. */
  lemma TickOk(s: Sender, counts: map<nat, nat>, typed: seq<UserEvent>, t: Timing, rewrite: bool)
    requires CountsOk(counts, typed) && ClientOk(s, counts, typed, t.First()) && t.Rising()
    requires s.ending.shutdownInProgress || NextNum(s) < SHUTDOWN
    ensures var o, s1 := Tick(s, t, rewrite), CalculateTimers(s, t);
      && ClientOk(s1, counts, typed, t.end) && s1.sent == s.sent && s1.ending == s.ending && s1.book == s.book
      && (if o.out.Some? then SendsOk(s1, o, counts, typed, t.end) && WritesOk(s1, o, typed)
          else o == Unwritten(o.sender) && ClientOk(o.sender, counts, typed, t.end) && o.sender.sent == s.sent
               && o.sender.book == s.book && o.sender.ending.shutdownInProgress == s.ending.shutdownInProgress)
  {
    Later(s, counts, typed, t.First(), t.mark);
    Later(s, counts, typed, t.First(), t.end);
    TimersOk(s, counts, typed, t.mark, t);
    TimersOk(s, counts, typed, t.end, t);
    var s1 := CalculateTimers(s, t);
    TickSendsOk(s1, counts, typed, t, rewrite);
    TickEnds(s, counts, typed, t, rewrite);
  }

  lemma TickEnds(s: Sender, counts: map<nat, nat>, typed: seq<UserEvent>, t: Timing, rewrite: bool)
    requires s.sent != [] && t.mark <= t.end
    requires var s1, a := CalculateTimers(s, t), TickSends(CalculateTimers(s, t), t, rewrite);
      && ClientOk(s, counts, typed, t.end) && ClientOk(s1, counts, typed, t.end)
      && s1.sent == s.sent && s1.ending == s.ending && s1.book == s.book
      && if a.out.Some? then SendsOk(s1, a, counts, typed, t.mark) && WritesOk(s1, a, typed)
         else a == Unwritten(a.sender) && SameState(s1, a.sender) && a.sender.book == s1.book
    ensures var o, s1 := Tick(s, t, rewrite), CalculateTimers(s, t);
      if o.out.Some? then SendsOk(s1, o, counts, typed, t.end) && WritesOk(s1, o, typed)
      else o == Unwritten(o.sender) && ClientOk(o.sender, counts, typed, t.end) && o.sender.sent == s.sent
           && o.sender.book == s.book && o.sender.ending.shutdownInProgress == s.ending.shutdownInProgress
  {
    hide NextNum, Wrap, CalculateTimers, TickSends;
    if !s.ending.finished {
      var a, o := TickSends(CalculateTimers(s, t), t, rewrite), Tick(s, t, rewrite);
      assert SameState(a.sender, o.sender);
      if a.out.Some? {
        SendsLater(CalculateTimers(s, t), a, counts, typed, t.mark, t.end);
        assert forall x: Sender :: SameState(x, a.sender) ==> SameState(x, o.sender);
      }
    }
  }

  /** The journal after each write of an operation that sends is one a restart can go on from. */
  lemma SendDisk(file: seq<Record>, s: Sender, o: Outcome, counts: map<nat, nat>, typed: seq<UserEvent>, now: nat,
                 rest: Rest, n: nat)
    requires CountsOk(counts, typed) && ClientOk(s, counts, typed, now) && !s.ending.shutdownInProgress
    requires SavedOk(Replay(file), counts, typed, s.sent[0].num) && AllKnown(s.sent, Replay(file).sent) && Others(rest)
    requires SendsOk(s, o, counts, typed, now) && WritesOk(s, o, typed)
    ensures var saved := Replay(FileAfter(file, o, n, rest));
      && SavedOk(saved, if n >= 2 && o.record.Some? then counts[o.out.value.newNum := |typed|] else counts, typed,
                 s.sent[0].num)
      && (n >= 3 ==> AllKnown(o.sender.sent, saved.sent) && SavedOk(saved, counts[o.out.value.newNum := |typed|], typed,
                                                                    s.sent[0].num))
  {
    hide RewriteRecords, Reserve;
    var num, c := o.out.value.newNum, counts[o.out.value.newNum := |typed|];
    CountsGrow(counts, typed, s, num);
    var f1 := if n >= 1 && o.first.Some? then RewriteRecords(o.first.value, rest) else file;
    if n >= 1 && o.first.Some? {
      RewriteSaved(s, counts, typed, now, rest);
    }
    var saved1 := Replay(f1);
    assert SavedOk(saved1, counts, typed, s.sent[0].num) && AllKnown(s.sent, saved1.sent);
    if n >= 2 {
      var f2 := if o.record.Some? then f1 + [o.record.value] else f1;
      SendRecord(f1, s, o, counts, typed, now);
      if n >= 3 && o.again.Some? {
        AgainSaved(s, o, counts, typed, now, rest);
      }
    }
  }

  lemma AgainSaved(s: Sender, o: Outcome, counts: map<nat, nat>, typed: seq<UserEvent>, now: nat, rest: Rest)
    requires CountsOk(counts, typed) && ClientOk(s, counts, typed, now) && !s.ending.shutdownInProgress && Others(rest)
    requires SHUTDOWN !in counts
    requires SendsOk(s, o, counts, typed, now) && WritesOk(s, o, typed) && o.again.Some?
    ensures var saved := Replay(RewriteRecords(o.again.value, rest));
      && SavedOk(saved, counts[o.out.value.newNum := |typed|], typed, s.sent[0].num)
      && AllKnown(o.sender.sent, saved.sent)
  {
    hide RewriteRecords, Reserve, Replay, SavedOk;
    var c := counts[o.out.value.newNum := |typed|];
    CountsGrow(counts, typed, s, o.out.value.newNum);
    var a: Sender :| SameState(a, o.sender) && o.again.value == Reserve(a);
    assert ClientOk(a, c, typed, now);
    RewriteSaved(a, c, typed, now, rest);
  }

  lemma SendRecord(f: seq<Record>, s: Sender, o: Outcome, counts: map<nat, nat>, typed: seq<UserEvent>, now: nat)
    requires CountsOk(counts, typed) && ClientOk(s, counts, typed, now) && !s.ending.shutdownInProgress
    requires SavedOk(Replay(f), counts, typed, s.sent[0].num) && AllKnown(s.sent, Replay(f).sent)
    requires SendsOk(s, o, counts, typed, now) && WritesOk(s, o, typed)
    ensures var saved := Replay(if o.record.Some? then f + [o.record.value] else f);
      && SavedOk(saved, counts[o.out.value.newNum := |typed|], typed, s.sent[0].num)
      && AllKnown(o.sender.sent, saved.sent)
  {
    hide Reserve, FileAfter;
    var num, saved := o.out.value.newNum, Replay(f);
    var sent := if o.record.Some? then saved.sent + [SentState(num, |typed|, 0)] else saved.sent;
    if o.record.Some? {
      assert Last(saved.sent).num in counts;
      AppendSaved(saved, counts, typed, s.sent[0].num, num);
      ReplayAppend(f, Sent(num, |typed|));
      assert sent[|saved.sent|].num == num;
    } else {
      assert Last(s.sent).num in counts;
      assert counts[num := |typed|] == counts;
      assert Known(saved.sent, s.sent[|s.sent| - 1].num);
    }
    assert Known(sent, num);
    forall i | 0 <= i < |o.sender.sent| ensures Known(sent, o.sender.sent[i].num) {
      var x := o.sender.sent[i].num;
      if x != num {
        var j :| 0 <= j < |s.sent| && s.sent[j].num == x;
        var k :| 0 <= k < |saved.sent| && saved.sent[k].num == s.sent[j].num;
        assert sent[k].num == x;
      }
    }
  }

  // --- Steps keep the invariant ---

  lemma CountsExtended(w: World, num: nat)
    requires CountsOk(w.counts, w.typed)
    requires ServerOk(w.server, w.counts) && NetOk(w.net, w.counts, w.front)
    requires AcksOk(w.acks, w.server, w.counts, w.front)
    ensures ServerOk(w.server, w.counts[num := |w.typed|])
    ensures NetOk(w.net, w.counts[num := |w.typed|], w.front)
    ensures AcksOk(w.acks, w.server, w.counts[num := |w.typed|], w.front)
  {
  }

  lemma Later(s: Sender, counts: map<nat, nat>, typed: seq<UserEvent>, now: nat, later: nat)
    requires ClientOk(s, counts, typed, now) && now <= later
    ensures ClientOk(s, counts, typed, later) && s.sent != []
  {
  }

  lemma NetGrows(net: set<Instruction>, m: Instruction, counts: map<nat, nat>, front: nat)
    requires NetOk(net, counts, front) && m.newNum in counts && m.throwawayNum <= front
    ensures NetOk(net + {m}, counts, front)
  {
  }

  lemma TickKeeps(w: World, t: Timing, rewrite: bool, rest: Rest)
    requires Inv(w) && Enabled(w, Ticking(t, rewrite, rest))
    ensures Inv(Next(w, Ticking(t, rewrite, rest)))
  {
    hide Tick, CalculateTimers, NextNum, FileAfter, Replay, SavedOk, CountsOk, ClientOk, ServerOk, AcksOk, WritesOk,
         NetOk, Others;
    var s := w.client.value;
    Later(s, w.counts, w.typed, w.now, t.First());
    TickOk(s, w.counts, w.typed, t, rewrite);
    var o, s1 := Tick(s, t, rewrite), CalculateTimers(s, t);
    if o.out.Some? {
      var num := o.out.value.newNum;
      CountsExtended(w, num);
      CountsGrow(w.counts, w.typed, s1, num);
      NetGrows(w.net, o.out.value, w.counts[num := |w.typed|], w.front);
      if w.disk.Some? {
        SendDisk(w.disk.value, s1, o, w.counts, w.typed, t.end, rest, 3);
        SendBook(s1, o, w.typed);
      }
    } else if w.disk.Some? {
      NoWrite(w.disk.value, o, 3, rest);
    }
  }

  lemma WaitingKeeps(w: World, t: Timing)
    requires Inv(w) && Enabled(w, Waiting(t))
    ensures Inv(Next(w, Waiting(t)))
  {
    hide CalculateTimers, Replay, SavedOk, CountsOk, ServerOk, AcksOk, NetOk, NextNum;
    var s := w.client.value;
    Later(s, w.counts, w.typed, w.now, t.end);
    TimersOk(s, w.counts, w.typed, t.end, t);
    WaitedSent(s, t);
    hide ClientOk, Waited;
  }

  lemma WaitedSent(s: Sender, t: Timing)
    requires s.sent != []
    ensures Waited(s, t).sent == s.sent && Waited(s, t).ending == s.ending && Waited(s, t).book == s.book
  {
    hide Assumed, AckDeadline, SendDeadline;
  }

  lemma SendBook(s: Sender, o: Outcome, typed: seq<UserEvent>)
    requires WritesOk(s, o, typed) && s.book.journaledFront == s.sent[0].num
    ensures o.sender.book.journaling == s.book.journaling && o.sender.book.journaledFront == s.sent[0].num
    ensures o.sender.ending.shutdownInProgress == s.ending.shutdownInProgress
  {
  }

  lemma NoWrite(file: seq<Record>, o: Outcome, n: nat, rest: Rest)
    requires o.first.None? && o.record.None? && o.again.None?
    ensures FileAfter(file, o, n, rest) == file
  {
  }

  lemma CrashInTickKeeps(w: World, t: Timing, rewrite: bool, rest: Rest, n: nat)
    requires Inv(w) && Enabled(w, CrashInTick(t, rewrite, rest, n))
    ensures Inv(Next(w, CrashInTick(t, rewrite, rest, n)))
  {
    hide Tick, CalculateTimers, NextNum, FileAfter, Replay, CountsOk, ClientOk, ServerOk, AcksOk, WritesOk,
         NetOk, Others;
    var s := w.client.value;
    Later(s, w.counts, w.typed, w.now, t.First());
    TickOk(s, w.counts, w.typed, t, rewrite);
    var o, s1 := Tick(s, t, rewrite), CalculateTimers(s, t);
    if o.out.Some? {
      CountsExtended(w, o.out.value.newNum);
      CountsGrow(w.counts, w.typed, s1, o.out.value.newNum);
      if w.disk.Some? {
        SendDisk(w.disk.value, s1, o, w.counts, w.typed, t.end, rest, n);
      }
    } else if w.disk.Some? {
      NoWrite(w.disk.value, o, n, rest);
    }
  }

  /** No state announced covers an event that can still grow. */
  lemma GrowingIsNew(s: Sender, counts: map<nat, nat>, typed: seq<UserEvent>, now: nat, keys: Bytes)
    requires CountsOk(counts, typed) && ClientOk(s, counts, typed, now) && Growable(s)
    ensures typed != [] && Last(typed).columns == 0
    ensures forall n :: n in counts ==> counts[n] < |typed| && GrowLast(typed, keys)[..counts[n]] == typed[..counts[n]]
    ensures GrowLast(typed, keys)[s.eventBase..] == s.events[|s.events| - 1 := Last(s.events).(keys := Last(s.events).keys + keys)]
    ensures s.eventBase < |typed|
  {
    assert Last(s.sent).num in counts;
  }

  lemma SavedGrows(file: seq<Record>, counts: map<nat, nat>, typed: seq<UserEvent>, front: nat, keys: Bytes)
    requires CountsOk(counts, typed) && SavedOk(Replay(file), counts, typed, front) && keys != []
    requires typed != [] && forall n :: n in counts ==> counts[n] < |typed|
    requires Last(typed).columns == 0
    ensures SavedOk(Replay(file + [Typed(|typed| - 1, UserEvent(keys, 0, 0))]), counts, GrowLast(typed, keys), front)
    ensures Replay(file + [Typed(|typed| - 1, UserEvent(keys, 0, 0))]).sent == Replay(file).sent
  {
    var r, saved := Typed(|typed| - 1, UserEvent(keys, 0, 0)), Replay(file);
    ReplayAppend(file, r);
    assert ApplyRecord(saved, r).events == GrowLast(typed, keys)[saved.eventBase..];
  }

  lemma SavedAppends(file: seq<Record>, counts: map<nat, nat>, typed: seq<UserEvent>, front: nat, e: UserEvent)
    requires CountsOk(counts, typed) && SavedOk(Replay(file), counts, typed, front) && WellFormed(e)
    ensures SavedOk(Replay(file + [Typed(|typed|, e)]), counts, typed + [e], front)
    ensures Replay(file + [Typed(|typed|, e)]).sent == Replay(file).sent
  {
    var saved := Replay(file);
    ReplayAppend(file, Typed(|typed|, e));
    assert [] + e.keys == e.keys;
    assert ApplyRecord(saved, Typed(|typed|, e)).events == (typed + [e])[saved.eventBase..];
  }

  /** A client whose last event grows is as sound as before. */
  lemma GrowingKeepsClient(s: Sender, counts: map<nat, nat>, typed: seq<UserEvent>, now: nat, keys: Bytes)
    requires CountsOk(counts, typed) && ClientOk(s, counts, typed, now) && Growable(s)
    ensures typed != [] && CountsOk(counts, GrowLast(typed, keys))
    ensures ClientOk(s.(events := s.events[|s.events| - 1 := Last(s.events).(keys := Last(s.events).keys + keys)]), counts,
                     GrowLast(typed, keys), now)
  {
    GrowingIsNew(s, counts, typed, now, keys);
    hide SentOk, TimesOk;
    assert WellFormed(Last(typed));
  }

  lemma TypingKeeps(w: World, keys: Bytes)
    requires Inv(w) && Enabled(w, Typing(keys))
    ensures Inv(Next(w, Typing(keys)))
  {
    hide ApplyRecord, Replay, SavedOk, ServerOk, AcksOk, NetOk;
    var s := w.client.value;
    if s.ending.shutdownInProgress || keys == [] {
    } else if Growable(s) {
      GrowingKeepsClient(s, w.counts, w.typed, w.now, keys);
      GrowingIsNew(s, w.counts, w.typed, w.now, keys);
      hide ClientOk, CountsOk, GrowLast, WellFormed;
      assert s.Total() == |w.typed| by { TotalIsTyped(s, w.counts, w.typed, w.now); }
      if w.disk.Some? {
        SavedGrows(w.disk.value, w.counts, w.typed, w.front, keys);
      }
    } else {
      AppendKeeps(w, UserEvent(keys, 0, 0));
    }
  }

  lemma TotalIsTyped(s: Sender, counts: map<nat, nat>, typed: seq<UserEvent>, now: nat)
    requires ClientOk(s, counts, typed, now)
    ensures s.Total() == |typed|
  {
  }

  /** One event more, journaled. */
  lemma AppendKeeps(w: World, e: UserEvent)
    requires Inv(w) && w.client.Some? && !w.client.value.ending.shutdownInProgress && WellFormed(e)
    ensures var s := w.client.value;
      Inv(w.(client := Some(s.(events := s.events + [e])), typed := w.typed + [e],
             disk := if w.disk.Some? then Some(w.disk.value + [Typed(s.Total(), e)]) else None))
  {
    hide ApplyRecord, Replay, SavedOk, ServerOk, AcksOk, NetOk;
    var s := w.client.value;
    assert forall n :: n in w.counts ==> (w.typed + [e])[..w.counts[n]] == w.typed[..w.counts[n]];
    assert (w.typed + [e])[s.eventBase..] == s.events + [e];
    assert s.Total() == |w.typed|;
    if w.disk.Some? {
      SavedAppends(w.disk.value, w.counts, w.typed, w.front, e);
    }
  }

  lemma ResizingKeeps(w: World, columns: nat, rows: nat)
    requires Inv(w) && Enabled(w, Resizing(columns, rows))
    ensures Inv(Next(w, Resizing(columns, rows)))
  {
    var s := w.client.value;
    if !s.ending.shutdownInProgress && columns != 0 && rows != 0 {
      AppendKeeps(w, UserEvent([], columns, rows));
    }
    hide ApplyRecord, Replay, SavedOk, ServerOk, AcksOk, NetOk, CountsOk, ClientOk;
    assert ClientOk(s, w.counts, w.typed, w.now);
  }

  lemma {:induction false} DropBelowIsSuffix(sent: seq<SentState>, num: nat) returns (k: nat)
    ensures k <= |sent| && DropBelow(sent, num) == sent[k..]
    ensures forall i :: 0 <= i < k ==> sent[i].num < num
    ensures k < |sent| ==> sent[k].num >= num
  {
    if sent == [] || sent[0].num >= num {
      k := 0;
    } else {
      var j := DropBelowIsSuffix(sent[1..], num);
      k := j + 1;
      assert forall i :: 0 <= i < j ==> sent[1..][i].num < num;
      assert forall i :: 1 <= i < k ==> sent[i] == sent[1..][i - 1];
      assert sent[1..][j..] == sent[k..];
    }
  }

  lemma DropBelowFinds(sent: seq<SentState>, counts: map<nat, nat>, num: nat) returns (k: nat)
    requires SentOk(sent, counts) && Known(sent, num)
    ensures k < |sent| && DropBelow(sent, num) == sent[k..] && sent[k].num == num
  {
    k := DropBelowIsSuffix(sent, num);
    var i :| 0 <= i < |sent| && sent[i].num == num;
    assert k <= i;
    if k < i {
      assert Before(sent[k], sent[i]);
    }
  }

  lemma SuffixOk(s: Sender, counts: map<nat, nat>, typed: seq<UserEvent>, now: nat, k: nat)
    requires CountsOk(counts, typed) && ClientOk(s, counts, typed, now) && k < |s.sent|
    ensures ClientOk(s.(sent := s.sent[k..]), counts, typed, now) && s.sent[k].num >= s.sent[0].num
  {
    assert Last(s.sent[k..]) == Last(s.sent);
    if 0 < k {
      assert Before(s.sent[0], s.sent[k]);
    }
    assert forall i :: 0 <= i < |s.sent[k..]| ==> s.sent[k..][i] == s.sent[k + i];
    EventsMonotone(s.sent, counts, typed, 0, k);
  }

  lemma FrontSaved(file: seq<Record>, counts: map<nat, nat>, typed: seq<UserEvent>, front: nat, num: nat)
    requires CountsOk(counts, typed) && SavedOk(Replay(file), counts, typed, front)
    requires Known(Replay(file).sent, num) && num >= front
    ensures SavedOk(Replay(file + [Front(num)]), counts, typed, num)
    ensures Replay(file + [Front(num)]).sent == Replay(file).sent
  {
    ReplayAppend(file, Front(num));
  }

  lemma HearingKeeps(w: World, ackNum: nat, change: Option<Change>)
    requires Inv(w) && Enabled(w, Hearing(ackNum, change))
    ensures Inv(Next(w, Hearing(ackNum, change)))
  {
    hide ApplyRecord, Replay, SavedOk, ServerOk, SentOk, TimesOk, DropBelow, CountsOk;
    var s := w.client.value;
    if Known(s.sent, ackNum) {
      var k := DropBelowFinds(s.sent, w.counts, ackNum);
      SuffixOk(s, w.counts, w.typed, w.now, k);
      assert Known(s.sent, s.sent[k].num);
      if w.disk.Some? {
        FrontSaved(w.disk.value, w.counts, w.typed, w.front, ackNum);
      }
    }
  }

  lemma WritingJournalKeeps(w: World, rest: Rest)
    requires Inv(w) && Enabled(w, WritingJournal(rest))
    ensures Inv(Next(w, WritingJournal(rest)))
  {
    hide RewriteRecords, Replay, SavedOk, ServerOk, SentOk, TimesOk, NetOk, AcksOk, CountsOk, Others, Wrap;
    var s := w.client.value;
    var s1 := s.(book := s.book.(journaling := true));
    RewriteSaved(s1, w.counts, w.typed, w.now, rest);
  }

  lemma JournalingOtherKeeps(w: World, record: Record)
    requires Inv(w) && Enabled(w, JournalingOther(record))
    ensures Inv(Next(w, JournalingOther(record)))
  {
    hide Replay, SavedOk, ServerOk, NetOk, AcksOk, CountsOk, ClientOk;
    if w.disk.Some? {
      ReplayAppend(w.disk.value, record);
    }
  }

  lemma EndingSessionKeeps(w: World, time: nat)
    requires Inv(w) && Enabled(w, EndingSession(time))
    ensures Inv(Next(w, EndingSession(time)))
  {
    hide Replay, ServerOk, NetOk, AcksOk, CountsOk;
  }

  lemma CrashKeeps(w: World)
    requires Inv(w) && Enabled(w, Crash)
    ensures Inv(Next(w, Crash))
  {
    hide Replay, SavedOk, ServerOk, NetOk, AcksOk, CountsOk, ClientOk;
    SavedFront(w);
  }

  lemma SavedFront(w: World)
    requires Inv(w)
    ensures w.disk.Some? ==> Replay(w.disk.value).front == w.front
  {
  }

  /** Restoring finds the front among the states journaled, and every state it takes up is what it says. */
  lemma RestoreOk(saved: Saved, counts: map<nat, nat>, typed: seq<UserEvent>, front: nat, latest: nat, now: nat)
    requires CountsOk(counts, typed) && SavedOk(saved, counts, typed, front)
    ensures var s := Restore(saved, latest, now);
      && s.sent == DropBelow(saved.sent, saved.front) && ClientOk(s, counts, typed, now) && s.sent[0].num == front
  {
    var k := DropBelowFinds(saved.sent, counts, front);
    var whole := Restore(saved, latest, now).(sent := saved.sent);
    EventsMonotone(saved.sent, counts, typed, k, k);
    assert saved.sent[k].events == counts[front];
    hide DropBelow, SentOk;
    RestoreSuffixOk(saved.sent, counts, typed, now, k);
  }

  lemma RestoreSuffixOk(sent: seq<SentState>, counts: map<nat, nat>, typed: seq<UserEvent>, now: nat, k: nat)
    requires CountsOk(counts, typed) && SentOk(sent, counts) && k < |sent|
    requires forall i :: 0 <= i < |sent| ==> sent[i].timestamp == 0
    ensures SentOk(sent[k..], counts) && TimesOk(sent[k..], now) && sent[k..][0].events == sent[k].events
  {
    assert Last(sent[k..]) == Last(sent);
    assert forall i :: 0 <= i < |sent[k..]| ==> sent[k..][i] == sent[k + i];
  }

  /** The session right after the restored state was written to the journal anew. */
  function Restored(w: World, rest: Rest, latest: nat, time: nat): World
    requires w.disk.Some?
  {
    var s := Reserve(Restore(Replay(w.disk.value), latest, time));
    w.(client := Some(s), disk := Some(RewriteRecords(s, rest)), now := time)
  }

  lemma RestoredOk(w: World, rest: Rest, latest: nat, time: nat)
    requires Inv(w) && w.client.None? && w.disk.Some? && Others(rest)
    ensures Inv(Restored(w, rest, latest, time))
  {
    hide RewriteRecords, Replay, ServerOk, SentOk, TimesOk, NetOk, AcksOk, CountsOk, Others, Wrap, DropBelow;
    var saved := Replay(w.disk.value);
    RestoreOk(saved, w.counts, w.typed, w.front, latest, time);
    RewriteSaved(Restore(saved, latest, time), w.counts, w.typed, time, rest);
  }

  lemma ResumingKeeps(w: World, rest: Rest, latest: nat, time: nat, columns: nat, rows: nat)
    requires Inv(w) && Enabled(w, Resuming(rest, latest, time, columns, rows))
    ensures Inv(Next(w, Resuming(rest, latest, time, columns, rows)))
  {
    hide RewriteRecords, Replay, SavedOk, ServerOk, NetOk, AcksOk, CountsOk, ClientOk, Others, Restore, Reserve;
    RestoredOk(w, rest, latest, time);
    var w1 := Restored(w, rest, latest, time);
    RestoreRuns(Replay(w.disk.value), latest, time);
    if columns != 0 && rows != 0 {
      AppendKeeps(w1, UserEvent([], columns, rows));
    }
    ClientRuns(w1);
  }

  lemma RestoreRuns(saved: Saved, latest: nat, time: nat)
    ensures !Reserve(Restore(saved, latest, time)).ending.shutdownInProgress
    ensures Reserve(Restore(saved, latest, time)).sent != []
  {
    hide Wrap, DropBelow;
  }

  lemma ClientRuns(w: World)
    requires Inv(w) && w.client.Some?
    ensures w.client.value.sent != [] && w.front == w.client.value.sent[0].num
  {
  }

  lemma CrashInResumeKeeps(w: World, rest: Rest, latest: nat, time: nat, columns: nat, rows: nat, n: nat)
    requires Inv(w) && Enabled(w, CrashInResume(rest, latest, time, columns, rows, n))
    ensures Inv(Next(w, CrashInResume(rest, latest, time, columns, rows, n)))
  {
    hide RewriteRecords, Replay, SavedOk, ServerOk, NetOk, AcksOk, CountsOk, ClientOk, Others, Restore, Reserve;
    RestoredOk(w, rest, latest, time);
    var w1 := Restored(w, rest, latest, time);
    RestoreRuns(Replay(w.disk.value), latest, time);
    SavedFront(w);
    SavedFront(w1);
    if n >= 2 && columns != 0 && rows != 0 {
      AppendKeeps(w1, UserEvent([], columns, rows));
      var s := w1.client.value;
      SavedFront(w1.(client := Some(s.(events := s.events + [UserEvent([], columns, rows)])),
                     typed := w.typed + [UserEvent([], columns, rows)],
                     disk := Some(w1.disk.value + [Typed(s.Total(), UserEvent([], columns, rows))])));
    }
  }

  lemma ServerTakingKeeps(w: World, m: Instruction)
    requires Inv(w) && Enabled(w, ServerTaking(m))
    ensures Inv(Next(w, ServerTaking(m)))
  {
    hide Replay, SavedOk, CountsOk, ClientOk, TimesOk;
    SavedFront(w);
  }

  lemma StepKeeps(w: World, a: Action)
    requires Inv(w) && Enabled(w, a)
    ensures Inv(Next(w, a))
  {
    hide Inv, Enabled, Next;
    match a
    case Typing(keys) => TypingKeeps(w, keys);
    case Resizing(columns, rows) => ResizingKeeps(w, columns, rows);
    case Waiting(t) => WaitingKeeps(w, t);
    case Ticking(t, rewrite, rest) => TickKeeps(w, t, rewrite, rest);
    case CrashInTick(t, rewrite, rest, n) => CrashInTickKeeps(w, t, rewrite, rest, n);
    case Hearing(ackNum, change) => HearingKeeps(w, ackNum, change);
    case WritingJournal(rest) => WritingJournalKeeps(w, rest);
    case JournalingOther(record) => JournalingOtherKeeps(w, record);
    case EndingSession(time) => EndingSessionKeeps(w, time);
    case Crash => CrashKeeps(w);
    case Resuming(rest, latest, time, columns, rows) => ResumingKeeps(w, rest, latest, time, columns, rows);
    case CrashInResume(rest, latest, time, columns, rows, n) =>
      CrashInResumeKeeps(w, rest, latest, time, columns, rows, n);
    case ServerTaking(m) => ServerTakingKeeps(w, m);
  }

  lemma InitialOk(now: nat, columns: nat, rows: nat)
    requires Sized(columns, rows)
    ensures Inv(Initial(now, columns, rows))
  {
  }

  lemma {:induction false} RunKeeps(w: World, run: seq<Action>)
    requires Inv(w) && Runs(w, run)
    ensures Inv(After(w, run))
    decreases |run|
  {
    hide Inv, Enabled, Next;
    if run != [] {
      StepKeeps(w, run[0]);
      RunKeeps(Next(w, run[0]), run[1..]);
    }
  }
}
