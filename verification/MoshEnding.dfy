/** When a session is over for the client, and what it acknowledges until then. */
module MoshEnding {
  import opened MoshTypes
  import opened MoshSender
  import opened MoshSession
  import opened MoshSafety
  import opened MoshGuarantees
  import P = MoshPacing

  /** The number that ends a session, of the client's states and of the server's. */
  const END: nat := U64 - 1

  // --- What sending leaves ---

  /** An instruction's number and what it acknowledges, and what the client keeps of both. */
  ghost predicate Told(s: Sender, o: Outcome) {
    && o.out.Some? && o.out.value.ackNum == s.ackNum && o.sender.ackNum == s.ackNum
    && o.sender.ending.lastAckSent == s.ackNum && !o.sender.timers.pendingDataAck
    && o.sender.ending.shutdownTries == s.ending.shutdownTries + (if o.out.value.newNum == END then 1 else 0)
    && o.sender.ending.shutdownInProgress == s.ending.shutdownInProgress
    && o.sender.ending.shutdownStart == s.ending.shutdownStart && o.sender.ending.finished == s.ending.finished
  }

  predicate SameEnding(a: Sender, b: Sender) { a.ending == b.ending && a.ackNum == b.ackNum }

  lemma InstructionTells(s: Sender, diff: seq<UserEvent>, num: nat, rewrite: bool)
    requires s.assumed < |s.sent|
    ensures Told(s, SendInstruction(s, diff, num, rewrite))
  {
    hide Wrap;
  }

  lemma AddingStays(s: Sender, now: nat, num: nat, events: nat)
    ensures SameEnding(AddSentState(s, now, num, events).sender, s)
  {
    hide Wrap, Cull;
  }

  lemma MarkingStays(s: Sender, now: nat, num: nat)
    requires s.sent != []
    ensures SameEnding(MarkSent(s, now, num).sender, s)
  {
    AddingStays(s, now, num, s.Total());
    hide AddSentState;
  }

  lemma DataTells(s: Sender, diff: seq<UserEvent>, now: nat, after: nat, rewrite: bool)
    requires s.assumed < |s.sent|
    ensures Told(s, SendToReceiver(s, diff, now, after, rewrite))
  {
    MarkingStays(s, now, DataNum(s));
    InstructionTells(MarkSent(s, now, DataNum(s)).sender, diff, DataNum(s), rewrite);
    hide MarkSent, SendInstruction, DataNum;
  }

  lemma AckTells(s: Sender, now: nat, rewrite: bool)
    requires s.assumed < |s.sent|
    ensures Told(s, SendEmptyAck(s, now, rewrite))
  {
    AddingStays(s, now, NextNum(s), s.Total());
    InstructionTells(AddSentState(s, now, NextNum(s), s.Total()).sender, [], NextNum(s), rewrite);
    hide AddSentState, SendInstruction, NextNum;
  }

  lemma SendsTell(s: Sender, t: Timing, rewrite: bool)
    requires s.assumed < |s.sent|
    ensures var o := TickSends(s, t, rewrite);
      if o.out.Some? then Told(s, o) else SameEnding(o.sender, s)
    ensures TickSends(s, t, rewrite).sender.sent != []
  {
    var diff := UserDiff(s, s.sent[s.assumed].events);
    DataTells(s, diff, t.mark, t.after, rewrite);
    AckTells(s, t.mark, rewrite);
    hide SendToReceiver, SendEmptyAck, UserDiff, Told;
  }

  lemma TimersStay(s: Sender, t: Timing)
    requires s.sent != []
    ensures SameEnding(CalculateTimers(s, t), s)
  {
    hide Assumed, AckDeadline, SendDeadline;
  }

  // --- When it is over ---

  /** After a tick the session is over if and only if it is being ended and that was acknowledged, tried sixteen times or
    * is ten seconds old, or the last acknowledgment sent was of the server's own end. What was sent last is what the tick
    * sent, if it did, and every instruction with the ending number is a try. */
  lemma OverExactly(s: Sender, t: Timing, rewrite: bool)
    requires s.sent != [] && !s.ending.finished
    ensures var o := Tick(s, t, rewrite); var e := o.sender.ending;
      && o.sender.sent != []
      && (e.finished <==>
            || (s.ending.shutdownInProgress
                && (o.sender.sent[0].num == END || e.shutdownTries >= 16 || t.end >= s.ending.shutdownStart + 10000))
            || e.lastAckSent == END)
      && e.lastAckSent == (if o.out.Some? then o.out.value.ackNum else s.ending.lastAckSent)
      && e.shutdownTries == s.ending.shutdownTries + (if o.out.Some? && o.out.value.newNum == END then 1 else 0)
      && e.shutdownInProgress == s.ending.shutdownInProgress && e.shutdownStart == s.ending.shutdownStart
      && (o.out.Some? ==> o.out.value.ackNum == s.ackNum) && o.sender.ackNum == s.ackNum
  {
    TimersStay(s, t);
    SendsTell(CalculateTimers(s, t), t, rewrite);
    hide CalculateTimers, TickSends;
  }

  /** And then nothing is sent, typed or waited for any more. */
  lemma OverIsOver(s: Sender, t: Timing, rewrite: bool)
    requires s.sent != [] && s.ending.finished
    ensures Tick(s, t, rewrite) == Outcome(s, None, None, None, None) && WaitTime(s, t) == 0x7FFF_FFFF
  {
  }

  /** When the server has ended the session, the client says so once and is over: as soon as the interval has passed since
    * the last instruction. */
  lemma ServerEnds(s: Sender, t: Timing, rewrite: bool)
    requires s.sent != [] && !s.ending.finished && s.ackNum == END && t.check >= Last(s.sent).timestamp + t.interval
    ensures var o := Tick(s, t, rewrite);
      o.out.Some? && o.out.value.ackNum == END && o.sender.ending.finished
  {
    OverExactly(s, t, rewrite);
    DueForEnd(s, t);
    var s1 := CalculateTimers(s, t);
    SendsTell(s1, t, rewrite);
    DueSends(s1, t, rewrite);
    hide CalculateTimers, TickSends;
  }

  lemma DueForEnd(s: Sender, t: Timing)
    requires s.sent != [] && (s.ackNum == END || s.ending.shutdownInProgress)
    ensures CalculateTimers(s, t).timers.nextAckTime == Last(s.sent).timestamp + t.interval
    ensures CalculateTimers(s, t).ending.shutdownInProgress == s.ending.shutdownInProgress
  {
    hide Assumed, SendDeadline;
  }

  lemma SendsTheEnd(s: Sender, t: Timing, rewrite: bool)
    requires s.assumed < |s.sent| && s.ending.shutdownInProgress && TickSends(s, t, rewrite).out.Some?
    ensures TickSends(s, t, rewrite).out.value.newNum == END
  {
    hide UserDiff, Reserve, Cull, Wrap;
  }

  /** A session that is being ended says so with every instruction, as often as the interval allows. */
  lemma EndIsRepeated(s: Sender, t: Timing, rewrite: bool)
    requires s.sent != [] && !s.ending.finished && s.ending.shutdownInProgress
    ensures CalculateTimers(s, t).timers.nextAckTime == Last(s.sent).timestamp + t.interval
    ensures var o := Tick(s, t, rewrite);
      && (t.check >= Last(s.sent).timestamp + t.interval ==> o.out.Some?)
      && (o.out.Some? ==> o.out.value.newNum == END && o.sender.ending.shutdownTries == s.ending.shutdownTries + 1)
  {
    OverExactly(s, t, rewrite);
    DueForEnd(s, t);
    var s1 := CalculateTimers(s, t);
    if t.check >= s1.timers.nextAckTime {
      DueSends(s1, t, rewrite);
    }
    if TickSends(s1, t, rewrite).out.Some? {
      SendsTheEnd(s1, t, rewrite);
    }
    hide CalculateTimers, TickSends, Ends;
  }

  lemma DueSends(s: Sender, t: Timing, rewrite: bool)
    requires s.assumed < |s.sent| && t.check >= s.timers.nextAckTime
    ensures TickSends(s, t, rewrite).out.Some?
  {
    P.SendsAlways(s, t, rewrite);
    hide SendToReceiver, SendEmptyAck, UserDiff;
  }

  // --- Over runs ---

  /** Nobody ends the session: neither the user nor a screen of the server's with the ending number. */
  predicate GoesOnWith(a: Action) {
    && !a.EndingSession?
    && (a.Hearing? && a.change.Some? ==> a.change.value.latest != END)
    && (a.Resuming? ==> a.latest != END)
  }

  /** Neither is being ended nor has been. */
  predicate Going(w: World) {
    w.client.Some? ==>
      var s := w.client.value;
      !s.ending.finished && !s.ending.shutdownInProgress && s.ackNum != END && s.ending.lastAckSent != END
  }

  lemma TickingGoesOn(w: World, t: Timing, rewrite: bool, rest: Rest)
    requires Going(w) && Enabled(w, Ticking(t, rewrite, rest))
    ensures Going(Next(w, Ticking(t, rewrite, rest)))
  {
    OverExactly(w.client.value, t, rewrite);
    hide Tick, FileAfter, FrontOf, Others;
  }

  lemma WaitingGoesOn(w: World, t: Timing)
    requires Going(w) && Enabled(w, Waiting(t))
    ensures Going(Next(w, Waiting(t)))
  {
    TimersStay(w.client.value, t);
    hide CalculateTimers, FrontOf;
  }

  lemma StepGoesOn(w: World, a: Action)
    requires Going(w) && Enabled(w, a) && GoesOnWith(a)
    ensures Going(Next(w, a))
  {
    match a
    case Ticking(t, rewrite, rest) =>
      hide Going, GoesOnWith;
      TickingGoesOn(w, t, rewrite, rest);
    case Waiting(t) =>
      hide Going, GoesOnWith;
      WaitingGoesOn(w, t);
    case _ =>
      hide Tick, FileAfter, FrontOf, RewriteRecords, Replay, DropBelow, Wrap, TypedAfter, Waited;
  }

  lemma {:induction false} RunGoesOn(w: World, run: seq<Action>)
    requires Going(w) && Runs(w, run) && forall a :: a in run ==> GoesOnWith(a)
    ensures Going(After(w, run))
    decreases |run|
  {
    hide Going, Enabled, Next, GoesOnWith;
    if run != [] {
      assert GoesOnWith(run[0]);
      StepGoesOn(w, run[0]);
      RunGoesOn(Next(w, run[0]), run[1..]);
    }
  }

  /** A session that nobody ends is never over, in any run: through loss, crashes and resumes the client can go on. */
  lemma NeverOverByItself(now: nat, columns: nat, rows: nat, run: seq<Action>)
    requires Sized(columns, rows) && Runs(Initial(now, columns, rows), run) && forall a :: a in run ==> GoesOnWith(a)
    ensures var w := After(Initial(now, columns, rows), run);
      w.client.Some? ==> !w.client.value.ending.finished && !w.client.value.ending.shutdownInProgress
  {
    assert Going(Initial(now, columns, rows));
    hide Initial, GoesOnWith;
    RunGoesOn(Initial(now, columns, rows), run);
  }

  // --- What is acknowledged ---

  function TakenBy(before: nat, a: Action): nat
  {
    if a.Hearing? && a.change.Some? then a.change.value.latest
    else if a.Resuming? then a.latest
    else before
  }

  /** The screen the client has last taken in a run, or come back to. */
  function Taken(before: nat, run: seq<Action>): nat
    decreases |run|
  {
    if run == [] then before else Taken(TakenBy(before, run[0]), run[1..])
  }

  predicate Acknowledges(w: World, num: nat) { w.client.Some? ==> w.client.value.ackNum == num }

  lemma StepAcknowledges(w: World, a: Action, num: nat)
    requires Acknowledges(w, num) && Enabled(w, a)
    ensures Acknowledges(Next(w, a), TakenBy(num, a))
  {
    match a
    case Ticking(t, rewrite, rest) =>
      TickKeepsAck(w.client.value, t, rewrite);
      hide Tick, FileAfter, FrontOf, Others;
    case Waiting(t) =>
      TimersStay(w.client.value, t);
      hide CalculateTimers, FrontOf;
    case _ =>
      hide Tick, FileAfter, FrontOf, RewriteRecords, Replay, DropBelow, Wrap, TypedAfter, Waited;
  }

  lemma TickKeepsAck(s: Sender, t: Timing, rewrite: bool)
    requires s.sent != []
    ensures var o := Tick(s, t, rewrite); o.sender.ackNum == s.ackNum && (o.out.Some? ==> o.out.value.ackNum == s.ackNum)
  {
    if !s.ending.finished {
      OverExactly(s, t, rewrite);
      hide CalculateTimers, TickSends;
    }
  }

  lemma {:induction false} RunAcknowledges(w: World, run: seq<Action>, num: nat)
    requires Acknowledges(w, num) && Runs(w, run)
    ensures Acknowledges(After(w, run), Taken(num, run))
    decreases |run|
  {
    hide Acknowledges, Enabled, Next, TakenBy;
    if run != [] {
      StepAcknowledges(w, run[0], num);
      RunAcknowledges(Next(w, run[0]), run[1..], TakenBy(num, run[0]));
    }
  }

  /** Every instruction acknowledges the screen last taken, after a restart the one come back to. */
  lemma LastTakenIsAcknowledged(now: nat, columns: nat, rows: nat, run: seq<Action>, t: Timing, rewrite: bool)
    requires Sized(columns, rows) && Runs(Initial(now, columns, rows), run)
    ensures var w := After(Initial(now, columns, rows), run);
      Running(w) && Tick(w.client.value, t, rewrite).out.Some? ==>
        Tick(w.client.value, t, rewrite).out.value.ackNum == Taken(0, run)
  {
    assert Acknowledges(Initial(now, columns, rows), 0);
    var w := After(Initial(now, columns, rows), run);
    RunAcknowledges(Initial(now, columns, rows), run, 0);
    hide Initial, Tick;
    if Running(w) {
      TickKeepsAck(w.client.value, t, rewrite);
    }
  }

  /** A deadline set from an acknowledgment owed does not move away. */
  lemma OwedAckIsDue(s: Sender, t: Timing, later: Timing)
    requires s.sent != [] && s.timers.pendingDataAck && !s.ending.shutdownInProgress && s.ackNum != END && t.now <= later.now
    ensures var s1 := CalculateTimers(s, t);
      && s1.timers.nextAckTime <= t.now + 100 && s1.sent == s.sent && SameEnding(s1, s)
      && CalculateTimers(s1, later).timers.nextAckTime <= t.now + 100
  {
    hide Assumed, SendDeadline;
  }

  /** A change to the screen that is taken is acknowledged within a tenth of a second: the client then waits no longer, and
    * a tick that comes when it has passed sends an instruction with the number of the screen. */
  lemma ScreenIsAcknowledged(w: World, ackNum: nat, change: Change, t: Timing, later: Timing, rewrite: bool)
    requires Enabled(w, Hearing(ackNum, Some(change))) && !change.empty && change.latest != END
    requires !w.client.value.ending.finished && !w.client.value.ending.shutdownInProgress
    requires t.Rising() && later.Rising() && t.end <= later.First()
    ensures var v := Next(w, Hearing(ackNum, Some(change)));
      && v.client.Some? && v.client.value.sent != []
      && WaitTime(v.client.value, t) <= 100
      && (later.check >= t.now + 100 ==>
            var o := Tick(Waited(v.client.value, t), later, rewrite); o.out.Some? && o.out.value.ackNum == change.latest)
  {
    var v := Next(w, Hearing(ackNum, Some(change)));
    HeardIsOwed(w.client.value, ackNum, change);
    var s := v.client.value;
    assert later.First() <= later.now;
    OwedAckIsDue(s, t, later);
    var s1 := CalculateTimers(s, t);
    TimersStay(s1, later);
    hide CalculateTimers, ProcessAcknowledgment, FrontOf;
    if later.check >= t.now + 100 {
      DueSends(CalculateTimers(s1, later), later, rewrite);
      TickKeepsAck(s1, later, rewrite);
      hide TickSends;
    }
  }

  /** An acknowledgment owed stays so until an instruction goes out, whatever is heard or typed in the meantime. */
  lemma OwedUntilSent(w: World, a: Action)
    requires Enabled(w, a) && w.client.Some? && w.client.value.timers.pendingDataAck
    ensures var v := Next(w, a);
      v.client.Some? ==> v.client.value.timers.pendingDataAck
                         || (a.Ticking? && Tick(w.client.value, a.t, a.rewrite).out.Some?)
  {
    match a
    case Ticking(t, rewrite, rest) =>
      TickOwes(w.client.value, t, rewrite);
      hide Tick, FileAfter, FrontOf, Others;
    case Waiting(t) =>
      TimersOwe(w.client.value, t);
      hide CalculateTimers, FrontOf;
    case _ =>
      hide Tick, FileAfter, FrontOf, RewriteRecords, Replay, DropBelow, Wrap, TypedAfter, Waited;
  }

  lemma TimersOwe(s: Sender, t: Timing)
    requires s.sent != []
    ensures CalculateTimers(s, t).timers.pendingDataAck == s.timers.pendingDataAck
  {
    hide Assumed, AckDeadline, SendDeadline;
  }

  lemma TickOwes(s: Sender, t: Timing, rewrite: bool)
    requires s.sent != []
    ensures var o := Tick(s, t, rewrite); o.out.Some? || o.sender.timers.pendingDataAck == s.timers.pendingDataAck
  {
    TimersOwe(s, t);
    hide CalculateTimers, UserDiff, Ends;
    hide SendToReceiver, SendEmptyAck;
    if !s.ending.finished {
      SendsOrNot(CalculateTimers(s, t), t, rewrite);
    }
  }

  lemma SendsOrNot(s: Sender, t: Timing, rewrite: bool)
    requires s.assumed < |s.sent|
    ensures var o := TickSends(s, t, rewrite); o.out.Some? || o.sender.timers.pendingDataAck == s.timers.pendingDataAck
  {
    if t.check >= s.timers.nextAckTime || t.check >= s.timers.nextSendTime {
      if s.Total() != s.sent[s.assumed].events || t.check >= s.timers.nextAckTime {
        P.SendsAlways(s, t, rewrite);
      }
    }
    hide SendToReceiver, SendEmptyAck, UserDiff;
  }

  lemma HeardIsOwed(s: Sender, ackNum: nat, change: Change)
    requires s.sent != [] && !change.empty
    ensures var r := Heard(ProcessAcknowledgment(s, ackNum).sender, Some(change));
      r.timers.pendingDataAck && r.ackNum == change.latest && r.ending == s.ending && r.sent != []
  {
    if Known(s.sent, ackNum) {
      DropLeaves(s.sent, ackNum);
    }
    hide DropBelow;
  }

  lemma {:induction false} DropLeaves(sent: seq<SentState>, num: nat)
    requires Known(sent, num)
    ensures DropBelow(sent, num) != []
  {
    if sent[0].num < num {
      var i :| 0 <= i < |sent| && sent[i].num == num;
      assert sent[1..][i - 1].num == num;
      DropLeaves(sent[1..], num);
    }
  }
}
