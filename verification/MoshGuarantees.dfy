/** What the mosh client promises about typing, over every run of MoshSession. */
module MoshGuarantees {
  import opened MoshTypes
  import opened MoshSender
  import opened MoshSession
  import opened MoshSafety
  import opened MoshTyping

  /** Every run: loss, repeats, reordering, retries, crashes within an operation and resumes, and any readings of a clock
    * that does not go back. */
  ghost predicate Reachable(w: World) {
    exists now: nat, columns: nat, rows: nat, run: seq<Action> ::
      Sized(columns, rows) && Runs(Initial(now, columns, rows), run) && w == After(Initial(now, columns, rows), run)
  }

  lemma ReachableKeeps(w: World)
    requires Reachable(w)
    ensures Inv(w)
  {
    hide Inv, Runs, After, Initial;
    var now: nat, columns: nat, rows: nat, run: seq<Action> :|
      Sized(columns, rows) && Runs(Initial(now, columns, rows), run) && w == After(Initial(now, columns, rows), run);
    InitialOk(now, columns, rows);
    RunKeeps(Initial(now, columns, rows), run);
  }

  lemma ReachableStep(w: World, a: Action)
    requires Reachable(w) && Enabled(w, a)
    ensures Reachable(Next(w, a))
  {
    hide Runs, After, Initial, Enabled, Next;
    var now: nat, columns: nat, rows: nat, run: seq<Action> :|
      Sized(columns, rows) && Runs(Initial(now, columns, rows), run) && w == After(Initial(now, columns, rows), run);
    RunsOne(w, a);
    RunsOn(Initial(now, columns, rows), run, [a]);
  }

  /** Whatever the clock does: throughout a run everything said to the server and held by it is the first so many events
    * typed, if and only if in no tick a cull shifts the state a diff was made from to one of other typing. */
  lemma TypingArrivesExactly(now: nat, columns: nat, rows: nat, run: seq<Action>)
    requires Sized(columns, rows) && Runs(Initial(now, columns, rows), run)
    ensures AlwaysTruthful(Initial(now, columns, rows), run) <==> Careful(Initial(now, columns, rows), run)
  {
    hide Inv, Runs, Initial, Truthful, Careful, AlwaysTruthful;
    InitialOk(now, columns, rows);
    InitialTrue(now, columns, rows);
    RunIsTrueExactly(Initial(now, columns, rows), run);
  }

  /** What such runs reach. */
  ghost predicate CarefullyReachable(w: World) {
    exists now: nat, columns: nat, rows: nat, run: seq<Action> ::
      && Sized(columns, rows) && Runs(Initial(now, columns, rows), run) && Careful(Initial(now, columns, rows), run)
      && w == After(Initial(now, columns, rows), run)
  }

  lemma CarefulKeeps(w: World)
    requires CarefullyReachable(w)
    ensures Inv(w) && Truthful(w) && Reachable(w)
  {
    hide Inv, Runs, After, Initial, Careful, Truthful;
    var now: nat, columns: nat, rows: nat, run: seq<Action> :|
      && Sized(columns, rows) && Runs(Initial(now, columns, rows), run) && Careful(Initial(now, columns, rows), run)
      && w == After(Initial(now, columns, rows), run);
    InitialOk(now, columns, rows);
    InitialTrue(now, columns, rows);
    RunKeeps(Initial(now, columns, rows), run);
    RunIsTrueExactly(Initial(now, columns, rows), run);
    TruthfulInTheEnd(Initial(now, columns, rows), run);
  }

  /** Typing arrives exactly once and in order: each state the server holds is the first so many events typed. For every
    * state taken for received and all readings of the clock, as long as no cull shifts the base of a diff. */
  lemma TypingArrivesOnceInOrder(w: World)
    requires CarefullyReachable(w)
    ensures forall n :: n in w.server ==>
      n in w.counts && w.counts[n] <= |w.typed| && w.server[n] == w.typed[..w.counts[n]]
  {
    CarefulKeeps(w);
  }

  /** With one reading of the clock for each tick no run is anything else. */
  lemma TypingArrivesWithStillClock(now: nat, columns: nat, rows: nat, run: seq<Action>)
    requires Sized(columns, rows) && Runs(Initial(now, columns, rows), run) && StillClock(run)
    ensures CarefullyReachable(After(Initial(now, columns, rows), run))
    ensures AlwaysTruthful(Initial(now, columns, rows), run)
  {
    hide Inv, Runs, After, Initial, Truthful, Careful, StillClock, AlwaysTruthful;
    InitialOk(now, columns, rows);
    StillIsCareful(Initial(now, columns, rows), run);
    TypingArrivesExactly(now, columns, rows, run);
  }

  /** The counts of the numbers announced, and the events they cover, are the same in both sessions. */
  ghost predicate Frozen(w: World, v: World) {
    forall n :: n in w.counts ==>
      n in v.counts && v.counts[n] == w.counts[n]
      && w.counts[n] <= |w.typed| && w.counts[n] <= |v.typed| && v.typed[..w.counts[n]] == w.typed[..w.counts[n]]
  }

  lemma TickFreezes(w: World, t: Timing, rewrite: bool)
    requires Inv(w) && Running(w) && CanTick(w, t)
    ensures var o := Tick(w.client.value, t, rewrite);
      o.out.Some? && o.out.value.newNum in w.counts ==> w.counts[o.out.value.newNum] == |w.typed|
  {
    hide Tick, CalculateTimers, NextNum, CountsOk;
    Later(w.client.value, w.counts, w.typed, w.now, t.First());
    TickOk(w.client.value, w.counts, w.typed, t, rewrite);
  }

  lemma TypingFreezes(w: World, keys: Bytes)
    requires Inv(w) && Running(w)
    ensures var typed := TypedAfter(w, keys);
      forall n :: n in w.counts ==> w.counts[n] <= |w.typed| <= |typed| && typed[..w.counts[n]] == w.typed[..w.counts[n]]
  {
    hide NetOk, ServerOk, AcksOk, DiskOk;
    var s := w.client.value;
    if !s.ending.shutdownInProgress && keys != [] && Growable(s) {
      GrowingIsNew(s, w.counts, w.typed, w.now, keys);
    }
  }

  lemma StepFreezes(w: World, a: Action)
    requires Inv(w) && Enabled(w, a)
    ensures Frozen(w, Next(w, a))
  {
    hide Tick, ProcessAcknowledgment, RewriteRecords, Replay, Restore, Reserve, NextNum, NetOk, ServerOk, AcksOk, DiskOk,
         ClientOk, TypedAfter, Type, Resize, FrontOf, FileAfter;
    match a
    case Ticking(t, rewrite, rest) => TickFreezes(w, t, rewrite);
    case CrashInTick(t, rewrite, rest, n) => TickFreezes(w, t, rewrite);
    case Typing(keys) => TypingFreezes(w, keys);
    case _ =>
  }

  /** What a number announced stands for never changes afterwards, through any run. */
  lemma {:induction false} AnnouncedNeverChanges(w: World, run: seq<Action>)
    requires Inv(w) && Runs(w, run)
    ensures Frozen(w, After(w, run))
    decreases |run|
  {
    hide Inv, Enabled, Next;
    if run == [] {
      CountsBounded(w);
    } else {
      StepFreezes(w, run[0]);
      StepKeeps(w, run[0]);
      AnnouncedNeverChanges(Next(w, run[0]), run[1..]);
    }
  }

  lemma CountsBounded(w: World)
    requires Inv(w)
    ensures Frozen(w, w)
  {
  }

  /** What is restored from the journal goes on where the session was: the server still holds the journaled front,
    * no instruction told it to forget that, every state restored is what it says, all typing is there, and the front
    * is among the states journaled, so none has to be made up. */
  ghost predicate GoesOn(w: World, saved: Saved, latest: nat, now: nat) {
    && saved.front in w.server
    && (forall m :: m in w.net ==> m.throwawayNum <= saved.front)
    && saved.eventBase <= |w.typed| && saved.events == w.typed[saved.eventBase..]
    && (var s := Restore(saved, latest, now);
        && s.sent == DropBelow(saved.sent, saved.front) && s.sent != [] && s.sent[0].num == saved.front
        && (forall i :: 0 <= i < |s.sent| ==>
              s.sent[i].num in w.counts && s.sent[i].events == w.counts[s.sent[i].num]))
  }

  /** A crash at any step leaves a journal a restart can go on from. */
  lemma CrashLosesNothing(w: World, latest: nat, now: nat)
    requires Reachable(w) && w.disk.Some?
    ensures GoesOn(w, Replay(w.disk.value), latest, now)
  {
    ReachableKeeps(w);
    hide Replay, DropBelow, Restore;
    RestoreOk(Replay(w.disk.value), w.counts, w.typed, w.front, latest, now);
  }

  lemma NewIsAbove(s: Sender, o: Outcome, counts: map<nat, nat>, typed: seq<UserEvent>, now: nat)
    requires SendsOk(s, o, counts, typed, now) && WritesOk(s, o, typed) && ClientOk(s, counts, typed, now)
    requires o.record.Some?
    ensures o.record.value.Sent? && (o.record.value.num != SHUTDOWN ==> forall n :: n in counts ==> n < o.record.value.num)
  {
    hide InstructionOk;
    assert forall n :: n in counts ==> n <= Last(s.sent).num;
  }

  /** A number journaled as new is above every number announced before, in this run of the app or an earlier one. */
  lemma NumbersNeverRepeat(w: World, t: Timing, rewrite: bool)
    requires Reachable(w) && Running(w) && CanTick(w, t)
    ensures var o := Tick(w.client.value, t, rewrite);
      o.record.Some? ==>
        && o.record.value.Sent?
        && (o.record.value.num != SHUTDOWN ==> forall n :: n in w.counts ==> n < o.record.value.num)
  {
    ReachableKeeps(w);
    hide Tick, CalculateTimers, NextNum, CountsOk, ClientOk, SendsOk, WritesOk, DiskOk, ServerOk, NetOk, AcksOk;
    var s := w.client.value;
    Later(s, w.counts, w.typed, w.now, t.First());
    TickOk(s, w.counts, w.typed, t, rewrite);
    var o := Tick(s, t, rewrite);
    if o.out.Some? && o.record.Some? {
      NewIsAbove(CalculateTimers(s, t), o, w.counts, w.typed, t.end);
    }
  }

  lemma FrontIsHeld(w: World)
    requires Inv(w)
    ensures w.front in w.server && w.front in w.counts
  {
  }

  lemma TakenByServer(v: World, m: Instruction)
    requires Inv(v) && Truthful(v) && m in v.net && m.oldNum == v.front && m.newNum !in v.server
    requires m.newNum >= m.throwawayNum
    requires m.newNum in v.counts && v.counts[m.newNum] == |v.typed|
    ensures Enabled(v, ServerTaking(m))
    ensures m.newNum in Next(v, ServerTaking(m)).server && Next(v, ServerTaking(m)).server[m.newNum] == v.typed
  {
    hide CountsOk, ClientOk, ServerOk, NetOk, DiskOk, NetTrue;
    FrontIsHeld(v);
    ServerTells(v, m);
    HeldIsTyped(Next(v, ServerTaking(m)), m.newNum);
  }

  lemma HeldIsTyped(w: World, n: nat)
    requires Truthful(w) && n in w.server && n in w.counts && w.counts[n] == |w.typed|
    ensures w.server[n] == w.typed
  {
    assert w.typed[..|w.typed|] == w.typed;
  }

  /** No cull shifts the front itself. */
  lemma FrontIsNotShifted(s: Sender, counts: map<nat, nat>, typed: seq<UserEvent>, t: Timing, rewrite: bool)
    requires CountsOk(counts, typed) && ClientOk(s, counts, typed, t.First()) && t.Rising()
    requires s.ending.shutdownInProgress || NextNum(s) < SHUTDOWN
    requires var o := Tick(s, t, rewrite); o.out.Some? && o.out.value.oldNum == s.sent[0].num
    ensures !TickHarms(s, t)
  {
    TickOk(s, counts, typed, t, rewrite);
    var s1 := CalculateTimers(s, t);
    EventsMonotone(s.sent, counts, typed, 0, s1.assumed);
    assert s.sent[0].num in counts && counts[s.sent[0].num] == s.sent[0].events;
    hide CalculateTimers, Tick, TickHarms, NextNum, ClientOk, CountsOk;
    if TickHarms(s, t) {
      HarmedTick(s, counts, typed, t, rewrite);
    }
  }

  /** What starts from the front is never refused: the server takes it and then has all typing. */
  lemma FromTheFrontIsTaken(w: World, t: Timing, rewrite: bool, rest: Rest)
    requires CarefullyReachable(w) && Enabled(w, Ticking(t, rewrite, rest))
    ensures var o := Tick(w.client.value, t, rewrite);
      o.out.Some? && o.out.value.oldNum == w.front && o.out.value.newNum !in w.server ==>
        var m, v := o.out.value, Next(w, Ticking(t, rewrite, rest));
        && Enabled(v, ServerTaking(m))
        && m.newNum in Next(v, ServerTaking(m)).server && Next(v, ServerTaking(m)).server[m.newNum] == v.typed
  {
    hide Tick, CalculateTimers, NextNum, Replay, CountsOk, ClientOk, ServerOk, NetOk, SavedOk, FileAfter, Others,
         WritesOk, InstructionOk, AcksOk, DiskOk, TickHarms, Truthful;
    CarefulKeeps(w);
    TickKeeps(w, t, rewrite, rest);
    FrontIsHeld(w);
    var v, o := Next(w, Ticking(t, rewrite, rest)), Tick(w.client.value, t, rewrite);
    if o.out.Some? && o.out.value.oldNum == w.front && o.out.value.newNum !in w.server {
      Later(w.client.value, w.counts, w.typed, w.now, t.First());
      TickOk(w.client.value, w.counts, w.typed, t, rewrite);
      FrontIsNotShifted(w.client.value, w.counts, w.typed, t, rewrite);
      TickTells(w, t, rewrite, rest);
      hide Inv;
      TakenByServer(v, o.out.value);
    }
  }

  // --- Recovery ---

  /** Once the states sent are too old none of them is taken for received. */
  lemma TooOldToAssume(s: Sender, t: Timing)
    requires s.sent != [] && t.Rising()
    requires |s.sent| > 1 ==> t.First() >= s.sent[1].timestamp + t.timeout + ACK_DELAY
    ensures CalculateTimers(s, t).assumed == 0
  {
    hide AckDeadline, SendDeadline;
    assert t.LoopTime(1) >= t.First();
    assert AssumedFrom(s.sent, 1, t) == 0;
  }

  /** A tick late enough to send unacknowledged typing again: all states sent are past their time, what was sent before
    * is sent again only to a server heard lately, and new typing has waited its millisecond. */
  predicate LateEnough(s: Sender, t: Timing)
    requires s.sent != []
  {
    && t.First() >= Last(s.sent).timestamp + t.timeout + ACK_DELAY && t.interval <= t.timeout + ACK_DELAY
    && (s.Total() == Last(s.sent).events ==> s.timers.lastHeard + ACTIVE_RETRY_TIMEOUT > t.now
                                             && (s.timers.mindelayClock != NEVER ==> t.check > s.timers.mindelayClock))
    && (s.Total() != Last(s.sent).events ==>
          t.check > if s.timers.mindelayClock == NEVER then t.now else s.timers.mindelayClock)
  }

  lemma LateIsDue(s: Sender, counts: map<nat, nat>, typed: seq<UserEvent>, t: Timing)
    requires CountsOk(counts, typed) && ClientOk(s, counts, typed, t.First()) && t.Rising()
    requires s.Total() != s.sent[0].events && LateEnough(s, t)
    ensures var s1 := CalculateTimers(s, t);
      && s1.assumed == 0 && t.check >= s1.timers.nextSendTime && s1.Total() != s1.sent[0].events && s1.sent == s.sent
  {
    TimersOk(s, counts, typed, t.First(), t);
    TooOldToAssume(s, t);
    hide AckDeadline, Assumed;
    EventsMonotone(s.sent, counts, typed, 0, 0);
    assert s.Total() == |typed| == CalculateTimers(s, t).Total();
  }

  lemma DueFromTheFront(s: Sender, t: Timing, rewrite: bool)
    requires s.sent != [] && s.assumed == 0 && t.check >= s.timers.nextSendTime && s.Total() != s.sent[0].events
    ensures var o := TickSends(s, t, rewrite);
      o.out.Some? && o.out.value.oldNum == s.sent[0].num && o.out.value.newNum == DataNum(s)
  {
    DataSays(s, UserDiff(s, s.sent[0].events), t.mark, t.after, rewrite);
    hide SendToReceiver, SendEmptyAck, UserDiff, DataNum;
  }

  /** Recovery: in a session that goes on, unacknowledged typing leads a tick that comes late enough to send from the
    * front, and with that the server has all typing: already, if only the acknowledgment was lost, or by taking it. */
  lemma LostTypingArrives(w: World, t: Timing, rewrite: bool, rest: Rest)
    requires CarefullyReachable(w) && Enabled(w, Ticking(t, rewrite, rest))
    requires !w.client.value.ending.shutdownInProgress && !w.client.value.ending.finished
    requires w.client.value.Total() != w.client.value.sent[0].events && LateEnough(w.client.value, t)
    ensures var o, v := Tick(w.client.value, t, rewrite), Next(w, Ticking(t, rewrite, rest));
      o.out.Some? && o.out.value.oldNum == w.front &&
      (var m := o.out.value;
       if m.newNum in w.server then v.server == w.server && v.server[m.newNum] == v.typed
       else
         && Enabled(v, ServerTaking(m))
         && m.newNum in Next(v, ServerTaking(m)).server && Next(v, ServerTaking(m)).server[m.newNum] == v.typed)
  {
    hide Inv, Truthful, FileAfter, Others, FrontOf;
    CarefulKeeps(w);
    FromTheFrontIsTaken(w, t, rewrite, rest);
    SentFromTheFront(w, t, rewrite, rest);
  }

  lemma SentFromTheFront(w: World, t: Timing, rewrite: bool, rest: Rest)
    requires Inv(w) && Truthful(w) && Enabled(w, Ticking(t, rewrite, rest))
    requires !w.client.value.ending.shutdownInProgress && !w.client.value.ending.finished
    requires w.client.value.Total() != w.client.value.sent[0].events && LateEnough(w.client.value, t)
    ensures var o, v := Tick(w.client.value, t, rewrite), Next(w, Ticking(t, rewrite, rest));
      && o.out.Some? && o.out.value.oldNum == w.front && v.server == w.server && v.typed == w.typed
      && (o.out.value.newNum in w.server ==> w.server[o.out.value.newNum] == w.typed)
  {
    var s := w.client.value;
    Later(s, w.counts, w.typed, w.now, t.First());
    ClientSentFromTheFront(s, w.counts, w.typed, t, rewrite);
    hide Tick, AcksOk, DiskOk, NetTrue, NetOk, CountsOk, ClientOk, FileAfter, Others, LateEnough, NextNum, FrontOf;
    var num := Tick(s, t, rewrite).out.value.newNum;
    if num in w.server {
      HeldIsTyped(w, num);
    }
  }

  lemma ClientSentFromTheFront(s: Sender, counts: map<nat, nat>, typed: seq<UserEvent>, t: Timing, rewrite: bool)
    requires CountsOk(counts, typed) && ClientOk(s, counts, typed, t.First()) && t.Rising()
    requires !s.ending.shutdownInProgress && !s.ending.finished && NextNum(s) < SHUTDOWN
    requires s.Total() != s.sent[0].events && LateEnough(s, t)
    ensures var m := Tick(s, t, rewrite).out;
      && m.Some? && m.value.oldNum == s.sent[0].num
      && (m.value.newNum in counts ==> counts[m.value.newNum] == |typed|)
  {
    LateIsDue(s, counts, typed, t);
    TickOk(s, counts, typed, t, rewrite);
    hide CalculateTimers, Ends, TickSends, WritesOk, CountsOk, ClientOk, LateEnough, NextNum;
    DueFromTheFront(CalculateTimers(s, t), t, rewrite);
    NewStandsForAll(CalculateTimers(s, t), Tick(s, t, rewrite), counts, typed, t.end);
  }

  lemma NewStandsForAll(s: Sender, o: Outcome, counts: map<nat, nat>, typed: seq<UserEvent>, now: nat)
    requires SendsOk(s, o, counts, typed, now)
    ensures o.out.Some? && (o.out.value.newNum in counts ==> counts[o.out.value.newNum] == |typed|)
  {
  }

  // --- Culling against the optimistic base ---

  /** Whatever state is assumed, the instruction names the state its diff was made from exactly when no cull shifts it. */
  lemma NamedBase(s: Sender, diff: seq<UserEvent>, counts: map<nat, nat>, typed: seq<UserEvent>, now: nat, after: nat,
                  rewrite: bool)
    requires CountsOk(counts, typed) && ClientOk(s, counts, typed, now) && !s.ending.shutdownInProgress
    requires NextNum(s) < SHUTDOWN && s.assumed < |s.sent|
    ensures SendToReceiver(s, diff, now, after, rewrite).out.value.oldNum == s.sent[s.assumed].num <==> !CullShifts(s)
  {
    DataSays(s, diff, now, after, rewrite);
    if CullShifts(s) {
      NewIsAboveLast(s, counts, typed, now);
      assert Last(s.sent).num in counts;
      assert s.assumed + 1 < |s.sent| ==> Before(s.sent[s.assumed], s.sent[s.assumed + 1]);
      assert s.assumed + 1 < |s.sent| ==> s.sent[s.assumed + 1].num in counts && s.sent[s.assumed].num in counts;
    }
    hide SendToReceiver, DataNum, NextNum;
  }

  // --- The end of a session ---

  /** A shutdown once begun stays: nothing more is typed, and the first tick ten seconds on ends the session. */
  lemma ShutdownIsFinal(s: Sender, begin: nat, keys: Bytes, columns: nat, rows: nat, t: Timing, rewrite: bool)
    requires s.sent != [] && !s.ending.finished
    ensures var e := Shutdown(s, begin);
      && e.ending.shutdownInProgress && Shutdown(e, t.now) == e
      && Type(e, keys) == Unwritten(e) && Resize(e, columns, rows) == Unwritten(e)
      && (!s.ending.shutdownInProgress && t.end >= begin + ACTIVE_RETRY_TIMEOUT ==>
            Tick(e, t, rewrite).sender.ending.finished)
  {
    var e := Shutdown(s, begin);
    ShutdownStays(e, t, rewrite);
    hide CalculateTimers, TickSends;
  }

  lemma ShutdownStays(s: Sender, t: Timing, rewrite: bool)
    requires s.sent != []
    ensures var e := TickSends(CalculateTimers(s, t), t, rewrite).sender.ending;
      && e.shutdownInProgress == s.ending.shutdownInProgress && e.shutdownStart == s.ending.shutdownStart
    ensures TickSends(CalculateTimers(s, t), t, rewrite).sender.sent != []
  {
    var s1 := CalculateTimers(s, t);
    assert s1.ending == s.ending;
    hide CalculateTimers;
    SendingStays(s1, t, rewrite);
  }

  lemma SendingStays(s: Sender, t: Timing, rewrite: bool)
    requires s.assumed < |s.sent|
    ensures var r := TickSends(s, t, rewrite).sender;
      && r.sent != []
      && r.ending.shutdownInProgress == s.ending.shutdownInProgress && r.ending.shutdownStart == s.ending.shutdownStart
  {
    hide UserDiff, NextNum, DataNum, Wrap, Cull;
  }

  lemma {:induction false} DropsToEnd(before: seq<SentState>, last: seq<SentState>, num: nat)
    requires forall i :: 0 <= i < |before| ==> before[i].num < num
    requires last != [] && last[0].num >= num
    ensures DropBelow(before + last, num) == last
  {
    if before == [] {
      assert before + last == last;
    } else {
      assert (before + last)[1..] == before[1..] + last;
      DropsToEnd(before[1..], last, num);
    }
  }

  /** Records of states that do not go beyond the newest read already are passed over. */
  lemma {:induction false} RepeatsIgnored(file: seq<Record>, more: seq<SentState>)
    requires Replay(file).sent != []
    requires forall i :: 0 <= i < |more| ==> more[i].num <= Last(Replay(file).sent).num
    ensures Replay(file + SentRecords(more)) == Replay(file)
  {
    if more == [] {
      assert file + SentRecords(more) == file;
    } else {
      hide Replay, SentRecords;
      var rest, s := more[..|more| - 1], Last(more);
      assert rest + [s] == more;
      RepeatsIgnored(file, rest);
      SentRecordsSnoc(rest, s);
      Regroup(file, SentRecords(rest), Sent(s.num, s.events));
      ReplayAppend(file + SentRecords(rest), Sent(s.num, s.events));
    }
  }

  /** The states up to the first with the ending number. */
  function UpToEnd(sent: seq<SentState>): (rising: seq<SentState>)
    requires sent != [] && Last(sent).num == SHUTDOWN
    requires forall i, j :: 0 <= i < j < |sent| ==> Before(sent[i], sent[j])
    ensures rising != [] && rising <= sent && Last(rising).num == SHUTDOWN && rising[0] == sent[0]
    ensures forall i, j :: 0 <= i < j < |rising| ==> rising[i].num < rising[j].num
    ensures forall i :: |rising| <= i < |sent| ==> sent[i].num == SHUTDOWN
  {
    if |sent| > 1 && sent[|sent| - 2].num == SHUTDOWN then UpToEnd(sent[..|sent| - 1])
    else
      OnlyLastEnds(sent);
      sent
  }

  lemma OnlyLastEnds(sent: seq<SentState>)
    requires sent != [] && Last(sent).num == SHUTDOWN && (|sent| > 1 ==> sent[|sent| - 2].num != SHUTDOWN)
    requires forall i, j :: 0 <= i < j < |sent| ==> Before(sent[i], sent[j])
    ensures forall i, j :: 0 <= i < j < |sent| ==> sent[i].num < sent[j].num
  {
    forall i, j | 0 <= i < j < |sent| ensures sent[i].num < sent[j].num {
      assert Before(sent[i], sent[j]);
      if i < |sent| - 2 {
        assert Before(sent[i], sent[|sent| - 2]) && Before(sent[|sent| - 2], Last(sent));
      }
    }
  }

  lemma RewriteOfRising(s: Sender, rest: Rest)
    requires s.sent != [] && Last(s.sent).num == SHUTDOWN
    requires forall i, j :: 0 <= i < j < |s.sent| ==> Before(s.sent[i], s.sent[j])
    ensures var more := s.sent[|UpToEnd(s.sent)|..];
      RewriteRecords(Reserve(s), rest) == RewriteRecords(Reserve(s.(sent := UpToEnd(s.sent))), rest) + SentRecords(more)
  {
    hide Wrap, UpToEnd;
    var rising := UpToEnd(s.sent);
    assert s.sent == rising + s.sent[|rising|..];
    assert SentRecords(s.sent) == SentRecords(rising) + SentRecords(s.sent[|rising|..]);
  }

  lemma RewriteWithEnd(s: Sender, rest: Rest)
    requires Others(rest) && s.sent != [] && Last(s.sent).num == SHUTDOWN
    requires forall i :: 0 <= i < |s.events| ==> WellFormed(s.events[i])
    requires forall i, j :: 0 <= i < j < |s.sent| ==> Before(s.sent[i], s.sent[j])
    requires forall i :: 0 <= i < |s.sent| ==> s.eventBase <= s.sent[i].events <= s.Total()
    ensures var once := s.(sent := UpToEnd(s.sent));
      Replay(RewriteRecords(Reserve(s), rest))
      == Saved(Reserve(once).book.stateReserved, s.sent[0].num, s.eventBase, s.events, Timeless(once.sent))
  {
    hide RewriteRecords, Replay, Timeless, UpToEnd, Wrap;
    var once := s.(sent := UpToEnd(s.sent));
    var file := RewriteRecords(Reserve(once), rest);
    RewriteRoundTrip(once, rest);
    RewriteOfRising(s, rest);
    LastTimeless(once.sent);
    RepeatsIgnored(file, s.sent[|once.sent|..]);
  }

  /** After a restart from a journal that holds the number that ends a session, once or as often as it was sent, an
    * acknowledgment of the next number sent leaves that ending number as the front, so all further instructions tell the
    * server to forget every state but that one. */
  lemma EndNumberMustNotSurviveRestart(s: Sender, rest: Rest, latest: nat, now: nat, sentAt: nat)
    requires Others(rest) && s.sent != [] && Last(s.sent).num == SHUTDOWN
    requires forall i :: 0 <= i < |s.events| ==> WellFormed(s.events[i])
    requires forall i, j :: 0 <= i < j < |s.sent| ==> Before(s.sent[i], s.sent[j])
    requires forall i :: 0 <= i < |s.sent| ==> s.eventBase <= s.sent[i].events <= s.Total()
    requires forall i :: 0 <= i < |s.sent| && s.sent[i].num != SHUTDOWN ==> s.sent[i].num < s.book.stateReserved
    requires s.book.stateReserved < SHUTDOWN
    ensures var r := Restore(Replay(RewriteRecords(Reserve(s), rest)), latest, now);
      && r.sent != [] && NextNum(r) < SHUTDOWN
      && (var a := ProcessAcknowledgment(AddSentState(r, sentAt, NextNum(r), r.Total()).sender, NextNum(r)).sender;
          && a.sent != [] && a.sent[0].num == SHUTDOWN && Known(a.sent, NextNum(r)))
  {
    hide RewriteRecords, Replay, NextNum, AddSentState, ProcessAcknowledgment, Timeless, UpToEnd, Reserve, Restore;
    var once, saved := s.(sent := UpToEnd(s.sent)), Replay(RewriteRecords(Reserve(s), rest));
    RewriteWithEnd(s, rest);
    var r := Restore(saved, latest, now);
    EndRestored(once, saved, latest, now);
    EndAdded(r, sentAt, NextNum(r));
    EndAcknowledged(AddSentState(r, sentAt, NextNum(r), r.Total()).sender, NextNum(r));
  }

  /** No journal, and no client that would begin one. */
  predicate Gone(w: World) {
    w.disk.None? && (w.client.Some? ==> w.client.value.ending.shutdownInProgress)
  }

  lemma TickStaysEnding(s: Sender, t: Timing, rewrite: bool)
    requires s.sent != [] && s.ending.shutdownInProgress
    ensures Tick(s, t, rewrite).sender.ending.shutdownInProgress
  {
    ShutdownStays(s, t, rewrite);
    hide CalculateTimers, TickSends;
  }

  lemma StepStaysGone(w: World, a: Action)
    requires Gone(w) && Enabled(w, a)
    ensures Gone(Next(w, a))
  {
    hide Tick, FileAfter, FrontOf, RewriteRecords, CalculateTimers, DropBelow;
    match a
    case Ticking(t, rewrite, rest) => TickStaysEnding(w.client.value, t, rewrite);
    case Waiting(t) => WaitedSent(w.client.value, t);
    case _ =>
  }

  /** Which removing the journal before the shutdown avoids: whatever comes then, there is none to resume from. */
  lemma {:induction false} NoJournalAfterEnd(w: World, run: seq<Action>)
    requires Gone(w) && Runs(w, run)
    ensures After(w, run).disk.None?
    decreases |run|
  {
    hide Enabled, Next;
    if run != [] {
      StepStaysGone(w, run[0]);
      NoJournalAfterEnd(Next(w, run[0]), run[1..]);
    }
  }

  lemma EndedSessionIsNotResumed(w: World, time: nat, run: seq<Action>)
    requires Running(w) && !w.client.value.ending.finished
    requires Runs(Next(w, EndingSession(time)), run)
    ensures After(Next(w, EndingSession(time)), run).disk.None?
    ensures forall rest, latest, at, columns, rows ::
      !Enabled(After(Next(w, EndingSession(time)), run), Resuming(rest, latest, at, columns, rows))
  {
    NoJournalAfterEnd(Next(w, EndingSession(time)), run);
  }

  lemma EndRestored(s: Sender, saved: Saved, latest: nat, now: nat)
    requires s.sent != [] && Last(s.sent).num == SHUTDOWN && s.book.stateReserved < SHUTDOWN
    requires forall i, j :: 0 <= i < j < |s.sent| ==> s.sent[i].num < s.sent[j].num
    requires forall i :: 0 <= i < |s.sent| - 1 ==> s.sent[i].num < s.book.stateReserved
    requires saved == Saved(Reserve(s).book.stateReserved, s.sent[0].num, s.eventBase, s.events, Timeless(s.sent))
    ensures var r := Restore(saved, latest, now);
      && r.sent == Timeless(s.sent) && r.sent != [] && Last(r.sent).num == SHUTDOWN && NextNum(r) < SHUTDOWN
      && forall i :: 0 <= i < |r.sent| - 1 ==> r.sent[i].num < NextNum(r)
  {
    var sent := Timeless(s.sent);
    assert |sent| == |s.sent| && forall i :: 0 <= i < |sent| ==> sent[i].num == s.sent[i].num;
    assert DropBelow(sent, sent[0].num) == sent;
    hide Timeless;
  }

  lemma EndAdded(r: Sender, sentAt: nat, num: nat)
    requires r.sent != [] && Last(r.sent).num == SHUTDOWN
    requires forall i :: 0 <= i < |r.sent| - 1 ==> r.sent[i].num < num
    ensures var a := AddSentState(r, sentAt, num, r.Total()).sender;
      && |a.sent| >= 2 && a.sent[|a.sent| - 1].num == num && a.sent[|a.sent| - 2].num == SHUTDOWN
      && forall i :: 0 <= i < |a.sent| - 2 ==> a.sent[i].num < num
  {
    hide Wrap;
  }

  lemma EndAcknowledged(a: Sender, num: nat)
    requires |a.sent| >= 2 && a.sent[|a.sent| - 1].num == num < SHUTDOWN && a.sent[|a.sent| - 2].num == SHUTDOWN
    requires forall i :: 0 <= i < |a.sent| - 2 ==> a.sent[i].num < num
    ensures var b := ProcessAcknowledgment(a, num).sender;
      b.sent != [] && b.sent[0].num == SHUTDOWN && Known(b.sent, num)
  {
    var k := |a.sent| - 2;
    assert a.sent == a.sent[..k] + a.sent[k..];
    DropsToEnd(a.sent[..k], a.sent[k..], num);
    assert a.sent[k + 1].num == num && a.sent[k..][1].num == num;
    hide DropBelow;
  }

  /** What such an instruction leaves of the server. */
  lemma EndFrontForgetsAll(s: Sender, diff: seq<UserEvent>, now: nat, after: nat, rewrite: bool,
                           server: map<nat, seq<UserEvent>>)
    requires s.assumed < |s.sent| && s.sent[0].num == SHUTDOWN && forall n :: n in server ==> n <= SHUTDOWN
    ensures var m := SendToReceiver(s, diff, now, after, rewrite).out;
      m.Some? && forall n :: n in Forget(server, m.value.throwawayNum) ==> n == SHUTDOWN
  {
    DataSays(s, diff, now, after, rewrite);
    hide SendToReceiver;
  }
}
