/** When the client sends by itself, which states it keeps and how typing becomes events, in plain numbers. */
module MoshSending {
  import opened MoshTypes
  import opened MoshSender
  import E = MoshEnding

  // --- Deadlines ---

  lemma SentTimers(s: Sender, t: Timing, rewrite: bool)
    requires s.assumed < |s.sent| && TickSends(s, t, rewrite).out.Some? && t.mark <= t.after
    ensures var r := TickSends(s, t, rewrite).sender;
      r.sent != [] && t.mark + 3000 <= r.timers.nextAckTime <= t.after + 3000
  {
    hide Reserve, Cull, NextNum, UserDiff, AddSentState, MarkSent, SendInstruction;
  }

  lemma DeadlineStays(s: Sender, t: Timing)
    requires s.sent != [] && !s.ending.shutdownInProgress && s.ackNum != E.END
    ensures CalculateTimers(s, t).timers.nextAckTime <= s.timers.nextAckTime
  {
    hide Assumed, SendDeadline;
  }

  /** A client that has sent something does so again within three seconds, whatever there is to say: it waits no longer
    * than that, and a tick that comes when they are over sends. */
  lemma SendsEveryThreeSeconds(s: Sender, t: Timing, later: Timing, rewrite: bool, again: bool)
    requires s.sent != [] && !s.ending.finished && t.Rising() && later.Rising() && Tick(s, t, rewrite).out.Some?
    ensures var r := Tick(s, t, rewrite).sender;
      && r.sent != []
      && (!r.ending.finished && !r.ending.shutdownInProgress && r.ackNum != E.END ==>
            && (later.check >= t.after ==> WaitTime(r, later) <= 3000)
            && (later.check >= t.after + 3000 ==> Tick(r, later, again).out.Some?))
  {
    var s1 := CalculateTimers(s, t);
    SentTimers(s1, t, rewrite);
    var r := Tick(s, t, rewrite).sender;
    assert r.timers.nextAckTime <= t.after + 3000;
    hide CalculateTimers, TickSends, Ends;
    if !r.ending.finished && !r.ending.shutdownInProgress && r.ackNum != E.END {
      DeadlineStays(r, later);
      if later.check >= t.after + 3000 {
        E.DueSends(CalculateTimers(r, later), later, again);
      }
    }
  }

  /** A session just begun, or resumed, sends with its first tick: the size, or what the server may have missed. */
  lemma FirstTickSends(begun: nat, columns: nat, rows: nat, saved: Saved, latest: nat, t: Timing, rewrite: bool)
    requires t.check >= begun && latest != E.END
    ensures var s := Resize(Start(begun), columns, rows).sender;
      s.sent != [] && Tick(s, t, rewrite).out.Some?
    ensures var s := Resize(Reserve(Restore(saved, latest, begun)), columns, rows).sender;
      s.sent != [] && Tick(s, t, rewrite).out.Some?
  {
    DueAtOnce(Resize(Start(begun), columns, rows).sender, t, rewrite);
    hide DropBelow, Wrap;
    DueAtOnce(Resize(Reserve(Restore(saved, latest, begun)), columns, rows).sender, t, rewrite);
    hide Tick;
  }

  lemma DueAtOnce(s: Sender, t: Timing, rewrite: bool)
    requires s.sent != [] && !s.ending.finished && !s.ending.shutdownInProgress && s.ackNum != E.END
    requires t.check >= s.timers.nextAckTime
    ensures Tick(s, t, rewrite).out.Some?
  {
    DeadlineStays(s, t);
    E.DueSends(CalculateTimers(s, t), t, rewrite);
    hide CalculateTimers, TickSends;
  }

  /** It does not speak sooner than that for nothing: with nothing unacknowledged and no acknowledgment owed there is
    * nothing to do until then. */
  lemma IdleIsQuiet(s: Sender, t: Timing, rewrite: bool)
    requires s.sent != [] && !s.ending.finished && !s.ending.shutdownInProgress && s.ackNum != E.END
    requires !s.timers.pendingDataAck && s.Total() == s.sent[0].events == Last(s.sent).events
    requires s.eventBase <= s.sent[0].events
    requires forall i :: 0 <= i < |s.sent| ==> s.sent[i].events == s.Total()
    requires t.check < s.timers.nextAckTime && t.check < NEVER
    ensures Tick(s, t, rewrite).out.None? && WaitTime(s, t) > 0
  {
    IdleDeadlines(s, t);
    hide CalculateTimers;
  }

  lemma IdleDeadlines(s: Sender, t: Timing)
    requires s.sent != [] && !s.ending.shutdownInProgress && s.ackNum != E.END && !s.timers.pendingDataAck
    requires s.eventBase <= s.sent[0].events
    requires forall i :: 0 <= i < |s.sent| ==> s.sent[i].events == s.Total()
    ensures CalculateTimers(s, t).timers.nextAckTime == s.timers.nextAckTime
    ensures CalculateTimers(s, t).timers.nextSendTime == NEVER
  {
    hide Assumed;
    assert DropServed(s.(assumed := Assumed(s.sent, t))).Total() == s.Total();
  }

  /** Typing that the server has not acknowledged is not forgotten over the waiting: as long as the server was heard in the
    * last ten seconds, the client waits at most until the newest state sent is past its time. */
  lemma WaitsForRetry(s: Sender, t: Timing)
    requires s.sent != [] && s.eventBase <= s.sent[0].events <= s.Total() && t.interval <= t.timeout + 100
    requires s.Total() != s.sent[0].events && s.timers.lastHeard + 10000 > t.now
    ensures var s1, mark := CalculateTimers(s, t), if s.timers.mindelayClock == NEVER then t.now else s.timers.mindelayClock;
      s1.timers.nextSendTime <= Max(Last(s.sent).timestamp + t.timeout + 100, mark + 1)
  {
    hide Assumed, AckDeadline;
    assert DropServed(s.(assumed := Assumed(s.sent, t))).Total() == s.Total();
  }

  /** New typing goes out as soon as the interval since the last instruction has passed and it has waited a millisecond for
    * more, and no sooner. */
  lemma NewTypingIsDue(s: Sender, t: Timing)
    requires s.sent != [] && s.eventBase <= s.sent[0].events <= s.Total() && s.Total() != Last(s.sent).events
    ensures var s1, mark := CalculateTimers(s, t), if s.timers.mindelayClock == NEVER then t.now else s.timers.mindelayClock;
      s1.timers.nextSendTime == Max(mark + 1, Last(s.sent).timestamp + t.interval)
  {
    hide Assumed, AckDeadline;
    assert DropServed(s.(assumed := Assumed(s.sent, t))).Total() == s.Total();
  }

  /** And when nothing is new: typing that is not taken for received goes out again after the interval, and after a
    * millisecond of waiting for more where that was begun; typing taken for received but not acknowledged after the timeout
    * and a tenth of a second; nothing for a server that was not heard for ten seconds. */
  lemma OldTypingIsDue(s: Sender, t: Timing)
    requires s.sent != [] && s.eventBase <= s.sent[0].events <= s.Total() == Last(s.sent).events
    ensures var s1, due, mark := CalculateTimers(s, t), Last(s.sent).timestamp, s.timers.mindelayClock;
      s1.assumed < |s.sent| &&
      (if s.timers.lastHeard + 10000 > t.now then
         && (s.Total() != s.sent[s1.assumed].events ==>
               s1.timers.nextSendTime == if mark == NEVER then due + t.interval else Max(due + t.interval, mark + 1))
         && (s.sent[s1.assumed].events == s.Total() != s.sent[0].events ==>
               s1.timers.nextSendTime == due + t.timeout + 100)
         && (s.sent[s1.assumed].events == s.Total() == s.sent[0].events ==> s1.timers.nextSendTime == NEVER)
       else s1.timers.nextSendTime == NEVER)
  {
    hide Assumed, AckDeadline;
    assert DropServed(s.(assumed := Assumed(s.sent, t))).Total() == s.Total();
  }

  // --- What is taken for received ---

  lemma {:induction false} AssumedFromExactly(sent: seq<SentState>, i: nat, t: Timing)
    requires 1 <= i <= |sent|
    ensures var k := AssumedFrom(sent, i, t);
      && (forall j | i <= j <= k :: t.LoopTime(j) < sent[j].timestamp + t.timeout + 100)
      && (k + 1 < |sent| ==> t.LoopTime(k + 1) >= sent[k + 1].timestamp + t.timeout + 100)
    decreases |sent| - i
  {
    if i < |sent| && t.LoopTime(i) < sent[i].timestamp + t.timeout + ACK_DELAY {
      AssumedFromExactly(sent, i + 1, t);
    }
  }

  /** The newest state such that it and all between it and the front were sent less than the timeout and a tenth of a second
    * before they were looked at. */
  lemma AssumedExactly(sent: seq<SentState>, t: Timing, k: nat)
    requires sent != [] && k < |sent|
    ensures k == Assumed(sent, t)
       <==> && (forall j | 1 <= j <= k :: t.LoopTime(j) < sent[j].timestamp + t.timeout + 100)
            && (k + 1 < |sent| ==> t.LoopTime(k + 1) >= sent[k + 1].timestamp + t.timeout + 100)
  {
    AssumedFromExactly(sent, 1, t);
    hide AssumedFrom;
    var a := Assumed(sent, t);
    if k < a {
      assert t.LoopTime(k + 1) < sent[k + 1].timestamp + t.timeout + 100;
    }
  }

  /** Events that the front covers are dropped, these and no others, whenever the deadlines are worked out. */
  lemma ServedIsDropped(s: Sender, t: Timing)
    requires s.sent != [] && s.eventBase <= s.sent[0].events <= s.Total()
    ensures var r := CalculateTimers(s, t);
      && r.eventBase == s.sent[0].events && r.Total() == s.Total() && |r.events| == s.Total() - s.sent[0].events
      && r.events == s.events[s.sent[0].events - s.eventBase..]
  {
    hide Assumed, AckDeadline, SendDeadline;
    if s.sent[0].events == s.eventBase {
      assert s.events[0..] == s.events;
    }
  }

  // --- Numbers ---

  /** Typing sent again goes out under the newest number, which only gets a new time, as long as nothing was typed since.
    * New typing goes out under a new number, above the newest and not below what was reserved in an earlier life, and is
    * journaled; so does the end of a session under its own. */
  lemma NumberOfData(s: Sender, diff: seq<UserEvent>, now: nat, after: nat, rewrite: bool)
    requires s.assumed < |s.sent| && Last(s.sent).num < E.END
    ensures var o, last := SendToReceiver(s, diff, now, after, rewrite), Last(s.sent);
      && o.out.Some? && o.sender.sent != [] && o.out.value.newNum == Last(o.sender.sent).num
      && Last(o.sender.sent).timestamp == now && Last(o.sender.sent).events == s.Total()
      && o.sender.assumed == |o.sender.sent| - 1
      && (if s.ending.shutdownInProgress then o.out.value.newNum == E.END
          else if s.Total() == last.events then
            o.out.value.newNum == last.num && o.record == None && |o.sender.sent| == |s.sent|
          else o.out.value.newNum == Max((last.num + 1) % U64, s.book.stateFloor)
               && o.record == Some(Sent(o.out.value.newNum, s.Total())))
  {
    DataMarks(s, now);
    E.DataTells(s, diff, now, after, rewrite);
    DataSent(s, diff, now, after, rewrite);
    hide SendToReceiver, MarkSent;
  }

  lemma DataSent(s: Sender, diff: seq<UserEvent>, now: nat, after: nat, rewrite: bool)
    requires s.assumed < |s.sent|
    ensures var o, marked := SendToReceiver(s, diff, now, after, rewrite), MarkSent(s, now, DataNum(s));
      && o.sender.sent == marked.sender.sent && o.record == marked.record && o.out.Some? && o.out.value.newNum == DataNum(s)
      && o.sender.assumed == |o.sender.sent| - 1
  {
    hide MarkSent, DataNum, Reserve;
  }

  lemma DataMarks(s: Sender, now: nat)
    requires s.sent != [] && Last(s.sent).num < E.END
    ensures var o, num := MarkSent(s, now, DataNum(s)), DataNum(s);
      && o.sender.sent != [] && Last(o.sender.sent) == SentState(num, s.Total(), now)
      && num == (if s.ending.shutdownInProgress then E.END else if s.Total() == Last(s.sent).events then Last(s.sent).num
                 else Max((Last(s.sent).num + 1) % U64, s.book.stateFloor))
      && (!s.ending.shutdownInProgress && s.Total() == Last(s.sent).events ==> o.record == None && |o.sender.sent| == |s.sent|)
      && (!s.ending.shutdownInProgress && s.Total() != Last(s.sent).events && num != Last(s.sent).num ==>
            o.record == Some(Sent(num, s.Total())))
  {
    hide Reserve;
  }

  /** An acknowledgment without typing always has a new number. */
  lemma NumberOfAck(s: Sender, now: nat, rewrite: bool)
    requires s.assumed < |s.sent|
    ensures var o := SendEmptyAck(s, now, rewrite);
      && o.out.Some? && o.out.value.diff == [] && o.record == Some(Sent(o.out.value.newNum, s.Total()))
      && o.out.value.newNum == if s.ending.shutdownInProgress then E.END
                               else Max((Last(s.sent).num + 1) % U64, s.book.stateFloor)
  {
    hide Reserve, Cull;
  }

  // --- Which states are kept ---

  /** Up to 32 states are kept. With one more the one goes that has fifteen newer ones before the newest. */
  lemma CullExactly(sent: seq<SentState>, s: SentState)
    requires |sent| <= 32
    ensures |Cull(sent + [s])| <= 32
    ensures |sent| < 32 ==> Cull(sent + [s]) == sent + [s]
    ensures |sent| == 32 ==> Cull(sent + [s]) == sent[..17] + sent[18..] + [s]
  {
    if |sent| == 32 {
      assert (sent + [s])[..17] == sent[..17] && (sent + [s])[18..] == sent[18..] + [s];
    }
  }

  lemma AddedFew(s: Sender, now: nat, num: nat, events: nat)
    requires |s.sent| <= 32
    ensures |AddSentState(s, now, num, events).sender.sent| <= 32
  {
    CullExactly(s.sent, SentState(num, events, now));
    hide Cull, Wrap;
  }

  lemma SendingFew(s: Sender, t: Timing, rewrite: bool)
    requires s.assumed < |s.sent| <= 32
    ensures |TickSends(s, t, rewrite).sender.sent| <= 32
  {
    AddedFew(s, t.mark, NextNum(s), s.Total());
    AddedFew(s, t.mark, DataNum(s), s.Total());
    hide AddSentState, UserDiff, NextNum, DataNum, Reserve;
  }

  /** So no tick makes them more. */
  lemma TickFew(s: Sender, t: Timing, rewrite: bool)
    requires s.sent != [] && |s.sent| <= 32
    ensures |Tick(s, t, rewrite).sender.sent| <= 32
  {
    if !s.ending.finished {
      SendingFew(CalculateTimers(s, t), t, rewrite);
      hide CalculateTimers, TickSends;
    }
  }

  // --- Acknowledgments ---

  predicate Rise(sent: seq<SentState>) { forall i, j :: 0 <= i < j < |sent| ==> sent[i].num < sent[j].num }

  lemma {:induction false} DropsToNumber(sent: seq<SentState>, k: nat)
    requires Rise(sent) && k < |sent|
    ensures DropBelow(sent, sent[k].num) == sent[k..]
    decreases k
  {
    if k > 0 {
      assert sent[1..][k - 1] == sent[k] && sent[1..][k - 1..] == sent[k..];
      DropsToNumber(sent[1..], k - 1);
    } else {
      assert sent[0..] == sent;
    }
  }

  /** An acknowledgment of the k-th state sent makes that the front and keeps all newer ones; the front is journaled if the
    * journal has another. */
  lemma AcknowledgedIsFront(s: Sender, k: nat)
    requires Rise(s.sent) && k < |s.sent|
    ensures var o, num := ProcessAcknowledgment(s, s.sent[k].num), s.sent[k].num;
      && o.sender == s.(sent := s.sent[k..], book := s.book.(journaledFront := if s.book.journaling then num
                                                                              else s.book.journaledFront))
      && o.record == (if s.book.journaling && num != s.book.journaledFront then Some(Front(num)) else None)
      && o.first == None && o.again == None && o.out == None
  {
    DropsToNumber(s.sent, k);
  }

  /** One of a state that was never sent, or is forgotten, changes nothing. */
  lemma UnknownIsIgnored(s: Sender, num: nat)
    requires s.sent != [] && forall i :: 0 <= i < |s.sent| ==> s.sent[i].num != num
    ensures ProcessAcknowledgment(s, num) == Outcome(s, None, None, None, None)
  {
  }

  // --- Typing ---

  /** Keys typed one after the other before anything is sent are one event, as if typed at once. */
  lemma TypedTogether(s: Sender, a: Bytes, b: Bytes)
    requires s.sent != [] && a != [] && b != [] && !s.ending.shutdownInProgress
    requires s.eventBase <= s.Total() && Last(s.sent).events <= s.Total()
    ensures Type(Type(s, a).sender, b).sender == Type(s, a + b).sender
    ensures |Type(s, a).sender.events| <= |s.events| + 1
  {
    var one := Type(s, a).sender;
    assert Growable(one);
    if Growable(s) {
      assert Last(s.events).keys + a + b == Last(s.events).keys + (a + b);
    }
  }

  /** What a state sent covers is never changed, and a size is never grown: keys are then an event of their own. */
  lemma TypedApart(s: Sender, keys: Bytes)
    requires s.sent != [] && keys != [] && !s.ending.shutdownInProgress
    requires s.events == [] || Last(s.events).columns != 0 || Last(s.sent).events >= s.Total()
    ensures Type(s, keys).sender.events == s.events + [UserEvent(keys, 0, 0)]
  {
  }

  /** A size is an event of its own, unless it is none or the session is being ended. */
  lemma SizeIsEvent(s: Sender, columns: nat, rows: nat)
    ensures Resize(s, columns, rows).sender.events
         == if s.ending.shutdownInProgress || columns == 0 || rows == 0 then s.events
            else s.events + [UserEvent([], columns, rows)]
  {
  }
}
