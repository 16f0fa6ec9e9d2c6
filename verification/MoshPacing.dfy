/** When the mosh client sends: deadlines that are due lead to an instruction, and instructions keep their distance. Time
  * stands still within a tick here. */
module MoshPacing {
  import opened MoshTypes
  import opened MoshSender
  import opened MoshSession
  import opened MoshSafety
  import opened MoshTyping

  const MIN_DISTANCE: nat := 20

  function Ceiling(x: real): int { if x.Floor as real == x then x.Floor else x.Floor + 1 }

  function Clamp(low: nat, x: int, high: nat): nat
    requires low <= high
  {
    Max(low, Min(x, high))
  }

  /** A reading of the clock with the smoothed round trip and its variation. */
  function TimingOf(now: nat, srtt: real, rttvar: real): Timing {
    At(now, Clamp(50, Ceiling(srtt + 4.0 * rttvar), 1000), Clamp(20, Ceiling(srtt / 2.0), 250))
  }

  /** All that pacing needs to know of the round trips. */
  predicate TimingOk(t: Timing) {
    t.Still() && 50 <= t.timeout <= 1000 && MIN_DISTANCE <= t.interval <= 250 && t.interval <= t.timeout && t.now < NEVER
  }

  lemma AnyRoundTripIsOk(now: nat, srtt: real, rttvar: real)
    requires now < NEVER && srtt >= 0.0 && rttvar >= 0.0
    ensures TimingOk(TimingOf(now, srtt, rttvar))
  {
    assert srtt / 2.0 <= srtt + 4.0 * rttvar;
  }

  /** The timeout is the round trip with four times its variation, the interval half the round trip, in whole milliseconds
    * and not less, where they lie between 50 and 1000 and between 20 and 250, and otherwise the bound that is nearer. */
  lemma TimingExactly(now: nat, srtt: real, rttvar: real)
    requires srtt >= 0.0 && rttvar >= 0.0
    ensures var t, x := TimingOf(now, srtt, rttvar), srtt + 4.0 * rttvar;
      && (x <= 50.0 ==> t.timeout == 50) && (x >= 1000.0 ==> t.timeout == 1000)
      && (50.0 <= x <= 1000.0 ==> x <= t.timeout as real < x + 1.0)
    ensures var t := TimingOf(now, srtt, rttvar);
      && (srtt <= 40.0 ==> t.interval == 20) && (srtt >= 500.0 ==> t.interval == 250)
      && (40.0 <= srtt <= 500.0 ==> srtt <= 2.0 * t.interval as real < srtt + 2.0)
  {
  }

  /** What pacing needs of a running client: times and events sent in order, and no clock ahead of now. */
  ghost predicate InOrder(s: Sender, now: nat) {
    && s.sent != [] && s.eventBase <= s.sent[0].events
    && TimesOk(s.sent, now)
    && (forall i, j :: 0 <= i <= j < |s.sent| ==> s.sent[i].events <= s.sent[j].events)
    && Last(s.sent).events <= s.Total()
    && (s.timers.mindelayClock == NEVER || s.timers.mindelayClock <= now)
  }

  lemma ClientInOrder(s: Sender, counts: map<nat, nat>, typed: seq<UserEvent>, now: nat)
    requires CountsOk(counts, typed) && ClientOk(s, counts, typed, now)
    requires s.timers.mindelayClock == NEVER || s.timers.mindelayClock <= now
    ensures InOrder(s, now)
  {
    forall i, j | 0 <= i <= j < |s.sent| ensures s.sent[i].events <= s.sent[j].events {
      EventsMonotone(s.sent, counts, typed, i, j);
    }
    EventsMonotone(s.sent, counts, typed, |s.sent| - 1, |s.sent| - 1);
  }

  lemma TimersInOrder(s: Sender, t: Timing)
    requires InOrder(s, t.now) && t.Still()
    ensures InOrder(CalculateTimers(s, t), t.now) && CalculateTimers(s, t).Total() == s.Total()
    ensures var a := CalculateTimers(s, t).assumed; a == 0 || a == |s.sent| - 1
    ensures CalculateTimers(s, t).assumed == 0 || t.now < Last(s.sent).timestamp + t.timeout + ACK_DELAY
  {
    hide AckDeadline, SendDeadline, AssumedFrom;
    AssumedZeroOrLast(s.sent, t);
    AssumedIsRecent(s.sent, 1, t);
  }

  lemma {:induction false} AssumedIsRecent(sent: seq<SentState>, i: nat, t: Timing)
    requires 1 <= i <= |sent| && t.Still()
    ensures var k := AssumedFrom(sent, i, t); k >= i ==> t.now < sent[k].timestamp + t.timeout + ACK_DELAY
    decreases |sent| - i
  {
    if i < |sent| {
      AssumedIsRecent(sent, i + 1, t);
    }
  }

  /** A due send deadline always finds something to send: tick()'s branch that only clears the deadline is dead. */
  lemma DueMeansData(s: Sender, t: Timing)
    requires InOrder(s, t.now) && TimingOk(t)
    ensures var s1 := CalculateTimers(s, t);
      t.now >= s1.timers.nextSendTime ==> s1.Total() != s1.sent[s1.assumed].events
  {
    TimersInOrder(s, t);
    hide DropServed, Assumed, AckDeadline;
    var s1 := CalculateTimers(s, t);
    assert s1.sent == s.sent && s1.timers.nextSendTime == SendDeadline(DropServed(s.(assumed := Assumed(s.sent, t))), t);
  }

  /** waitTime() is zero exactly when a tick at that time sends an instruction. */
  lemma ZeroWaitMeansSending(s: Sender, t: Timing, rewrite: bool)
    requires InOrder(s, t.now) && TimingOk(t) && !s.ending.finished
    ensures WaitTime(s, t) == 0 <==> Tick(s, t, rewrite).out.Some?
  {
    DueMeansData(s, t);
    hide CalculateTimers, SendEmptyAck, SendToReceiver, UserDiff, Ends;
    var s1 := CalculateTimers(s, t);
    SendsAlways(s1, t, rewrite);
  }

  lemma SendsAlways(s: Sender, t: Timing, rewrite: bool)
    requires s.assumed < |s.sent|
    ensures SendEmptyAck(s, t.mark, rewrite).out.Some?
    ensures SendToReceiver(s, UserDiff(s, s.sent[s.assumed].events), t.mark, t.after, rewrite).out.Some?
  {
    hide Reserve, Cull, NextNum, UserDiff, AddSentState, MarkSent;
  }

  /** Waiting for as long as waitTime() says leads to a tick that sends, unless what is left was sent before,
    * the server has been silent for too long to send it again, and no acknowledgment is due. */
  lemma WakingSends(s: Sender, t: Timing, later: Timing, rewrite: bool)
    requires InOrder(s, t.now) && TimingOk(t) && TimingOk(later) && !s.ending.finished
    requires Deadline(CalculateTimers(s, t)) - t.now <= INT_MAX && later == At(t.now + WaitTime(s, t), t.timeout, t.interval)
    ensures var s1 := CalculateTimers(s, t);
      Tick(s1, later, rewrite).out.Some? <==>
        (later.now >= s1.timers.nextAckTime || s1.Total() != Last(s1.sent).events
         || s1.timers.lastHeard + ACTIVE_RETRY_TIMEOUT > later.now)
  {
    var s1 := CalculateTimers(s, t);
    TimersInOrder(s, t);
    assert InOrder(s1, later.now) && s1.sent == s.sent && !s1.ending.finished;
    ZeroWaitMeansSending(s1, later, rewrite);
    TimersInOrder(s1, later);
    WakingDeadline(s, t, later);
    hide CalculateTimers, Tick;
  }

  /** The deadlines, without the events dropped in between. */
  lemma DeadlinesAre(s: Sender, t: Timing)
    requires InOrder(s, t.now)
    ensures var s1 := CalculateTimers(s, t);
      && s1.sent == s.sent && s1.Total() == s.Total() && s1.assumed == Assumed(s.sent, t) && s1.ending == s.ending
      && s1.ackNum == s.ackNum
      && s1.timers.nextAckTime == AckDeadline(s, t)
      && s1.timers.nextSendTime == SendDeadline(s.(assumed := Assumed(s.sent, t)), t)
      && s1.timers.pendingDataAck == s.timers.pendingDataAck && s1.timers.lastHeard == s.timers.lastHeard
      && s1.timers.mindelayClock == (if s.Total() != Last(s.sent).events && s.timers.mindelayClock == NEVER then t.now
                                     else s.timers.mindelayClock)
  {
    hide Assumed;
  }

  lemma AckDueAgain(s: Sender, t: Timing, later: Timing)
    requires InOrder(s, t.now) && t.now <= later.now && later.interval == t.interval
    ensures AckDeadline(CalculateTimers(s, t), later) == CalculateTimers(s, t).timers.nextAckTime
  {
    DeadlinesAre(s, t);
    hide CalculateTimers;
  }

  /** With new typing the deadline to send stays as it is. */
  lemma NewDueAgain(s: Sender, t: Timing, later: Timing, k: nat)
    requires InOrder(s, t.now) && t.now <= later.now && later.interval == t.interval && t.now < NEVER && k < |s.sent|
    requires s.Total() != Last(s.sent).events
    ensures SendDeadline(CalculateTimers(s, t).(assumed := k), later) == CalculateTimers(s, t).timers.nextSendTime
  {
    DeadlinesAre(s, t);
    hide CalculateTimers;
  }

  /** With none, it has come again by the time it came first, as long as the server is heard. */
  lemma OldDueAgain(s: Sender, t: Timing, later: Timing)
    requires InOrder(s, t.now) && TimingOk(t) && TimingOk(later) && t.now <= later.now
    requires later.interval == t.interval && later.timeout == t.timeout
    requires s.Total() == Last(s.sent).events && s.timers.lastHeard + ACTIVE_RETRY_TIMEOUT > later.now
    ensures var s1 := CalculateTimers(s, t);
      later.now >= s1.timers.nextSendTime ==>
        later.now >= SendDeadline(s1.(assumed := Assumed(s.sent, later)), later)
  {
    DeadlinesAre(s, t);
    TimersInOrder(s, t);
    var s1 := CalculateTimers(s, t);
    AssumedZeroOrLast(s.sent, later);
    AssumedIsRecent(s.sent, 1, later);
    OnceOld(s.sent, t, later);
    hide CalculateTimers, Assumed;
  }

  /** What was too old to be taken for received stays so. */
  lemma OnceOld(sent: seq<SentState>, t: Timing, later: Timing)
    requires sent != [] && t.Still() && later.Still() && t.now <= later.now && later.timeout == t.timeout
    ensures Assumed(sent, t) == 0 ==> Assumed(sent, later) == 0
  {
  }

  lemma WakingDeadline(s: Sender, t: Timing, later: Timing)
    requires InOrder(s, t.now) && TimingOk(t) && TimingOk(later) && !s.ending.finished
    requires Deadline(CalculateTimers(s, t)) - t.now <= INT_MAX && later == At(t.now + WaitTime(s, t), t.timeout, t.interval)
    ensures var s1 := CalculateTimers(s, t);
      WaitTime(s1, later) == 0 <==>
        (later.now >= s1.timers.nextAckTime || s1.Total() != Last(s1.sent).events
         || s1.timers.lastHeard + ACTIVE_RETRY_TIMEOUT > later.now)
  {
    var s1 := CalculateTimers(s, t);
    TimeHasCome(s, t, later);
    DeadlinesAre(s, t);
    TimersInOrder(s, t);
    InOrderLater(s1, t.now, later.now);
    DeadlinesAre(s1, later);
    AckDueAgain(s, t, later);
    NothingWaits(s1, later);
    hide CalculateTimers, Assumed, AckDeadline, InOrder, TimingOk, SendDeadline, At;
    if s.Total() != Last(s.sent).events {
      NewDueAgain(s, t, later, Assumed(s.sent, later));
    } else if s.timers.lastHeard + ACTIVE_RETRY_TIMEOUT > later.now {
      OldDueAgain(s, t, later);
    } else {
      NoneDue(s1.(assumed := Assumed(s.sent, later)), later);
    }
  }

  lemma TimeHasCome(s: Sender, t: Timing, later: Timing)
    requires InOrder(s, t.now) && TimingOk(t) && !s.ending.finished
    requires Deadline(CalculateTimers(s, t)) - t.now <= INT_MAX && later == At(t.now + WaitTime(s, t), t.timeout, t.interval)
    ensures later.now >= Deadline(CalculateTimers(s, t)) && later.now >= t.now
    ensures later.interval == t.interval && later.timeout == t.timeout
  {
    hide CalculateTimers, InOrder;
  }

  lemma InOrderLater(s: Sender, now: nat, later: nat)
    requires InOrder(s, now) && now <= later
    ensures InOrder(s, later)
  {
  }

  lemma NothingWaits(s: Sender, t: Timing)
    requires s.sent != [] && t.Still() && !s.ending.finished
    ensures WaitTime(s, t) == 0 <==> t.now >= Deadline(CalculateTimers(s, t))
  {
    hide CalculateTimers;
  }

  lemma NoneDue(s: Sender, t: Timing)
    requires s.assumed < |s.sent| && TimingOk(t)
    requires s.Total() == Last(s.sent).events && s.timers.lastHeard + ACTIVE_RETRY_TIMEOUT <= t.now
    ensures SendDeadline(s, t) > t.now
  {
  }

  // --- Distance between instructions over a run ---

  /** last is when the client last sent, if it has since it was started or resumed. */
  ghost predicate PaceOk(s: Sender, now: nat, last: Option<nat>) {
    && s.sent != []
    && (s.timers.mindelayClock == NEVER || s.timers.mindelayClock <= now)
    && (last.Some? ==>
          && last.value <= now && Last(s.sent).timestamp == last.value
          && s.timers.nextAckTime >= last.value + MIN_DISTANCE)
  }

  predicate Sends(w: World, a: Action)
    requires Enabled(w, a)
  {
    a.Ticking? && Tick(w.client.value, a.t, a.rewrite).out.Some?
  }

  function LastSend(w: World, a: Action, last: Option<nat>): Option<nat>
    requires Enabled(w, a)
  {
    if Sends(w, a) then Some(a.t.now)
    else if a.Crash? || a.CrashInTick? || a.Resuming? || a.CrashInResume? then None
    else last
  }

  predicate Spaced(w: World, run: seq<Action>, last: Option<nat>)
    requires Runs(w, run)
    decreases |run|
  {
    run != [] ==>
      && (Sends(w, run[0]) && last.Some? ==> run[0].t.now >= last.value + MIN_DISTANCE)
      && Spaced(Next(w, run[0]), run[1..], LastSend(w, run[0], last))
  }

  lemma TimersPace(s: Sender, t: Timing, last: Option<nat>)
    requires InOrder(s, t.now) && PaceOk(s, t.now, last) && TimingOk(t)
    ensures PaceOk(CalculateTimers(s, t), t.now, last)
    ensures last.Some? && t.now < last.value + MIN_DISTANCE ==>
      t.now < CalculateTimers(s, t).timers.nextAckTime && t.now < CalculateTimers(s, t).timers.nextSendTime
  {
    hide Assumed;
  }

  lemma MarkPace(s: Sender, now: nat)
    requires s.assumed < |s.sent|
    ensures var o := MarkSent(s, now, DataNum(s)); Last(o.sender.sent).timestamp == now
    ensures var o := AddSentState(s, now, NextNum(s), s.Total()); Last(o.sender.sent).timestamp == now
  {
    hide AddSentState, DataNum, NextNum;
    AddPace(s, now, NextNum(s));
    AddPace(s, now, DataNum(s));
  }

  lemma AddPace(s: Sender, now: nat, num: nat)
    requires s.sent != []
    ensures Last(AddSentState(s, now, num, s.Total()).sender.sent).timestamp == now
  {
    assert Reserve(s).sent == s.sent;
    hide Reserve, Cull;
    CullKeepsLast(s.sent, SentState(num, s.Total(), now));
  }

  lemma CullKeepsLast(sent: seq<SentState>, s: SentState)
    ensures Cull(sent + [s]) != [] && Last(Cull(sent + [s])) == s
  {
  }

  lemma SendingPace(s: Sender, t: Timing, rewrite: bool)
    requires s.assumed < |s.sent| && TickSends(s, t, rewrite).out.Some? && t.Still()
    ensures PaceOk(TickSends(s, t, rewrite).sender, t.now, Some(t.now))
  {
    MarkPace(s, t.now);
    var diff := UserDiff(s, s.sent[s.assumed].events);
    SendInstructionOk(MarkSent(s, t.now, DataNum(s)).sender, diff, DataNum(s), rewrite);
    SendInstructionOk(AddSentState(s, t.now, NextNum(s), s.Total()).sender, [], NextNum(s), rewrite);
    hide UserDiff, MarkSent, AddSentState, SendInstruction, NextNum, DataNum;
  }

  lemma DuePace(s: Sender, t: Timing, rewrite: bool, last: Option<nat>)
    requires s.assumed < |s.sent| && PaceOk(s, t.now, last) && t.Still()
    requires last.Some? && t.now < last.value + MIN_DISTANCE ==> t.now < s.timers.nextAckTime && t.now < s.timers.nextSendTime
    ensures var o := TickSends(s, t, rewrite);
      if o.out.Some? then PaceOk(o.sender, t.now, Some(t.now)) && (last.Some? ==> t.now >= last.value + MIN_DISTANCE)
      else PaceOk(o.sender, t.now, last)
  {
    hide SendEmptyAck, SendToReceiver, UserDiff;
    SendsAlways(s, t, rewrite);
    if TickSends(s, t, rewrite).out.Some? {
      SendingPace(s, t, rewrite);
    }
  }

  lemma TickPace(s: Sender, t: Timing, rewrite: bool, last: Option<nat>)
    requires InOrder(s, t.now) && PaceOk(s, t.now, last) && TimingOk(t)
    ensures var o := Tick(s, t, rewrite);
      if o.out.Some? then PaceOk(o.sender, t.now, Some(t.now))
                          && (last.Some? ==> t.now >= last.value + MIN_DISTANCE)
      else PaceOk(o.sender, t.now, last)
  {
    hide CalculateTimers, TickSends, Ends, InOrder;
    if !s.ending.finished {
      TimersPace(s, t, last);
      DuePace(CalculateTimers(s, t), t, rewrite, last);
    }
  }

  lemma AcknowledgePace(s: Sender, counts: map<nat, nat>, typed: seq<UserEvent>, now: nat, ackNum: nat, last: Option<nat>)
    requires CountsOk(counts, typed) && ClientOk(s, counts, typed, now) && PaceOk(s, now, last)
    ensures PaceOk(ProcessAcknowledgment(s, ackNum).sender, now, last)
  {
    if Known(s.sent, ackNum) {
      var k := DropBelowFinds(s.sent, counts, ackNum);
      assert Last(s.sent[k..]) == Last(s.sent);
      hide DropBelow;
    }
  }

  predicate Timed(a: Action) { a.Ticking? || a.Waiting? ==> TimingOk(a.t) }

  ghost predicate PaceAfter(w: World, a: Action, last: Option<nat>)
    requires Enabled(w, a)
  {
    && (Next(w, a).client.Some? ==> PaceOk(Next(w, a).client.value, Next(w, a).now, LastSend(w, a, last)))
    && (Sends(w, a) && last.Some? ==> a.t.now >= last.value + MIN_DISTANCE)
  }

  lemma WaitingPace(w: World, t: Timing, last: Option<nat>)
    requires Inv(w) && Enabled(w, Waiting(t)) && TimingOk(t) && PaceOk(w.client.value, w.now, last)
    ensures PaceAfter(w, Waiting(t), last)
  {
    hide CountsOk, ClientOk, InOrder, FrontOf, CalculateTimers, ServerOk, NetOk, AcksOk, DiskOk;
    Later(w.client.value, w.counts, w.typed, w.now, t.now);
    ClientInOrder(w.client.value, w.counts, w.typed, t.now);
    TimersPace(w.client.value, t, last);
  }

  lemma TickingPace(w: World, t: Timing, rewrite: bool, rest: Rest, last: Option<nat>)
    requires Inv(w) && Enabled(w, Ticking(t, rewrite, rest)) && TimingOk(t) && PaceOk(w.client.value, w.now, last)
    ensures PaceAfter(w, Ticking(t, rewrite, rest), last)
  {
    hide CountsOk, ClientOk, InOrder, FrontOf, Tick, FileAfter, Others, ServerOk, NetOk, AcksOk, DiskOk, NextNum;
    Later(w.client.value, w.counts, w.typed, w.now, t.now);
    ClientInOrder(w.client.value, w.counts, w.typed, t.now);
    TickPace(w.client.value, t, rewrite, last);
  }

  lemma HearingPace(w: World, ackNum: nat, change: Option<Change>, last: Option<nat>)
    requires Inv(w) && Enabled(w, Hearing(ackNum, change)) && PaceOk(w.client.value, w.now, last)
    ensures PaceAfter(w, Hearing(ackNum, change), last)
  {
    hide CountsOk, ClientOk, FrontOf, FileAfter, ProcessAcknowledgment, ServerOk, NetOk, AcksOk, DiskOk;
    AcknowledgePace(w.client.value, w.counts, w.typed, w.now, ackNum, last);
  }

  lemma QuietPace(w: World, a: Action, last: Option<nat>)
    requires Enabled(w, a) && !a.Waiting? && !a.Ticking? && !a.Hearing?
    requires w.client.Some? ==> PaceOk(w.client.value, w.now, last)
    ensures PaceAfter(w, a, last)
  {
    hide RewriteRecords, Replay, FileAfter, FrontOf, DropBelow, Wrap, TypedAfter;
  }

  lemma StepPace(w: World, a: Action, last: Option<nat>)
    requires Inv(w) && Enabled(w, a) && Timed(a)
    requires w.client.Some? ==> PaceOk(w.client.value, w.now, last)
    ensures PaceAfter(w, a, last)
  {
    hide Inv, PaceOk, PaceAfter;
    match a
    case Waiting(t) => WaitingPace(w, t, last);
    case Ticking(t, rewrite, rest) => TickingPace(w, t, rewrite, rest, last);
    case Hearing(ackNum, change) => HearingPace(w, ackNum, change, last);
    case _ => QuietPace(w, a, last);
  }

  /** Any two instructions a running client sends are at least 20 milliseconds apart, in any run. */
  lemma {:induction false} InstructionsKeepDistance(w: World, run: seq<Action>, last: Option<nat>)
    requires Inv(w) && Runs(w, run) && (w.client.Some? ==> PaceOk(w.client.value, w.now, last))
    requires forall i :: 0 <= i < |run| ==> Timed(run[i])
    ensures Spaced(w, run, last)
    decreases |run|
  {
    hide Inv, Enabled, Next, PaceOk, Sends, LastSend;
    if run != [] {
      StepPace(w, run[0], last);
      StepKeeps(w, run[0]);
      InstructionsKeepDistance(Next(w, run[0]), run[1..], LastSend(w, run[0], last));
    }
  }

  /** So they are in every run from the start of a session. */
  lemma EveryRunKeepsDistance(now: nat, columns: nat, rows: nat, run: seq<Action>)
    requires Sized(columns, rows) && Runs(Initial(now, columns, rows), run)
    requires forall i :: 0 <= i < |run| ==> Timed(run[i])
    ensures Spaced(Initial(now, columns, rows), run, None)
  {
    hide Spaced, Runs;
    InitialOk(now, columns, rows);
    InstructionsKeepDistance(Initial(now, columns, rows), run, None);
  }
}
