/** What the instructions to the server say, and when it is true: the typing between two states sent. An instruction's
  * diff is made from the state taken for received, whose number is looked up after a new state may have pushed an old
  * one out. */
module MoshTyping {
  import opened MoshTypes
  import opened MoshSender
  import opened MoshSession
  import opened MoshSafety

  /** An instruction tells the truth about the two states it names, or names one state twice and cannot be taken. */
  ghost predicate InstructionOk(m: Instruction, counts: map<nat, nat>, typed: seq<UserEvent>) {
    && m.newNum in counts
    && (|| m.oldNum == m.newNum
        || (m.oldNum in counts && counts[m.oldNum] <= counts[m.newNum] <= |typed|
            && m.diff == typed[counts[m.oldNum]..counts[m.newNum]]))
  }

  ghost predicate NetTrue(net: set<Instruction>, counts: map<nat, nat>, typed: seq<UserEvent>) {
    forall m :: m in net ==> InstructionOk(m, counts, typed)
  }

  /** Each state held stands for exactly the first events typed. */
  ghost predicate ServerTrue(server: map<nat, seq<UserEvent>>, counts: map<nat, nat>, typed: seq<UserEvent>) {
    forall n :: n in server ==> n in counts && counts[n] <= |typed| && server[n] == typed[..counts[n]]
  }

  ghost predicate Truthful(w: World) {
    NetTrue(w.net, w.counts, w.typed) && ServerTrue(w.server, w.counts, w.typed)
  }

  // --- Culling against the optimistic base ---

  /** The append culls a state at or before the one the diff was made from. */
  predicate CullShifts(s: Sender)
    requires s.assumed < |s.sent|
  {
    DataNum(s) != Last(s.sent).num && |s.sent| >= MAX_SENT_STATES && s.assumed >= |s.sent| - 15
  }

  /** It then names the next state, which is another one and stands for other typing. */
  predicate CullHarms(s: Sender)
    requires s.assumed < |s.sent|
  {
    CullShifts(s) && s.assumed + 1 < |s.sent| && s.sent[s.assumed].events != s.sent[s.assumed + 1].events
  }

  /** The state at an index after the append. */
  lemma OldState(sent: seq<SentState>, s: SentState, i: nat)
    requires i < |sent|
    ensures i < |Cull(sent + [s])|
    ensures Cull(sent + [s])[i]
         == if |sent| >= MAX_SENT_STATES && i >= |sent| - 15 then (sent + [s])[i + 1] else sent[i]
  {
  }

  lemma AddedBase(s: Sender, now: nat, num: nat)
    requires s.assumed < |s.sent|
    ensures AddSentState(s, now, num, s.Total()).sender.sent[s.assumed]
         == if |s.sent| >= MAX_SENT_STATES && s.assumed >= |s.sent| - 15
            then (s.sent + [SentState(num, s.Total(), now)])[s.assumed + 1] else s.sent[s.assumed]
    ensures AddSentState(s, now, num, s.Total()).sender.sent[0] == s.sent[0]
    ensures AddSentState(s, now, num, s.Total()).sender.ackNum == s.ackNum
  {
    hide Cull, Wrap;
    OldState(s.sent, SentState(num, s.Total(), now), s.assumed);
    OldState(s.sent, SentState(num, s.Total(), now), 0);
  }

  /** The number an instruction with data starts from. */
  function Base(s: Sender): nat
    requires s.assumed < |s.sent|
  {
    if !CullShifts(s) then s.sent[s.assumed].num
    else if s.assumed + 1 < |s.sent| then s.sent[s.assumed + 1].num
    else DataNum(s)
  }

  lemma MarkedSays(s: Sender, now: nat)
    requires s.assumed < |s.sent|
    ensures var a := MarkSent(s, now, DataNum(s)).sender;
      a.sent[s.assumed].num == Base(s) && a.sent[0].num == s.sent[0].num && a.ackNum == s.ackNum
  {
    hide DataNum, AddSentState, CullShifts;
    if DataNum(s) == Last(s.sent).num {
      assert !CullShifts(s) by { ResentStays(s); }
    } else {
      AddedBase(s, now, DataNum(s));
      ShiftIs(s);
    }
  }

  lemma ResentStays(s: Sender)
    requires s.assumed < |s.sent| && DataNum(s) == Last(s.sent).num
    ensures !CullShifts(s)
  {
    hide DataNum;
  }

  lemma ShiftIs(s: Sender)
    requires s.assumed < |s.sent| && DataNum(s) != Last(s.sent).num
    ensures CullShifts(s) <==> |s.sent| >= MAX_SENT_STATES && s.assumed >= |s.sent| - 15
  {
    hide DataNum;
  }

  lemma DataSays(s: Sender, diff: seq<UserEvent>, now: nat, after: nat, rewrite: bool)
    requires s.assumed < |s.sent|
    ensures SendToReceiver(s, diff, now, after, rewrite).out
         == Some(Instruction(Base(s), DataNum(s), s.ackNum, s.sent[0].num, diff))
  {
    MarkedSays(s, now);
    SendInstructionOk(MarkSent(s, now, DataNum(s)).sender, diff, DataNum(s), rewrite);
    hide MarkSent, Base, SendInstruction, DataNum;
  }

  lemma AckSays(s: Sender, now: nat, rewrite: bool)
    requires s.assumed < |s.sent|
    ensures var m := SendEmptyAck(s, now, rewrite).out;
      && m.Some? && m.value.newNum == NextNum(s) && m.value.diff == []
      && (|| m.value.oldNum == s.sent[s.assumed].num || m.value.oldNum == NextNum(s)
          || (s.assumed + 1 < |s.sent| && m.value.oldNum == s.sent[s.assumed + 1].num))
  {
    var num := NextNum(s);
    AddedBase(s, now, num);
    SendInstructionOk(AddSentState(s, now, num, s.Total()).sender, [], num, rewrite);
    hide Cull, Wrap, NextNum, SendInstruction, AddSentState;
  }

  /** An instruction with typing tells the truth if and only if no cull makes it name a state of other typing. For any
    * state that is taken for received. */
  lemma DataIsTrueExactly(s: Sender, counts: map<nat, nat>, typed: seq<UserEvent>, now: nat, after: nat, rewrite: bool)
    requires CountsOk(counts, typed) && ClientOk(s, counts, typed, now) && s.assumed < |s.sent|
    requires s.ending.shutdownInProgress || NextNum(s) < SHUTDOWN
    ensures var m := SendToReceiver(s, UserDiff(s, s.sent[s.assumed].events), now, after, rewrite).out;
      m.Some? && (InstructionOk(m.value, counts[DataNum(s) := |typed|], typed) <==> !CullHarms(s))
  {
    var diff, num := UserDiff(s, s.sent[s.assumed].events), DataNum(s);
    DataSays(s, diff, now, after, rewrite);
    DiffIsTyped(s, counts, typed, now, s.assumed);
    BaseSays(s, counts, typed, now);
    hide SendToReceiver, UserDiff, CullHarms, Base, DataNum, ClientOk, CountsOk, InstructionOk;
    OnlyThatDiff(SendToReceiver(s, diff, now, after, rewrite).out.value, counts[num := |typed|], typed,
                 s.sent[s.assumed].events);
  }

  /** For the typing from some event to the end just one base is right, besides the new state itself. */
  lemma OnlyThatDiff(m: Instruction, counts: map<nat, nat>, typed: seq<UserEvent>, from: nat)
    requires m.newNum in counts && counts[m.newNum] == |typed| && m.oldNum in counts && counts[m.oldNum] <= |typed|
    requires from <= |typed| && m.diff == typed[from..]
    ensures InstructionOk(m, counts, typed) <==> m.oldNum == m.newNum || counts[m.oldNum] == from
  {
    assert |typed[counts[m.oldNum]..|typed|]| == |typed| - counts[m.oldNum];
    assert typed[from..] == typed[from..|typed|];
  }

  /** What the number named stands for. */
  lemma BaseSays(s: Sender, counts: map<nat, nat>, typed: seq<UserEvent>, now: nat)
    requires CountsOk(counts, typed) && ClientOk(s, counts, typed, now) && s.assumed < |s.sent|
    requires s.ending.shutdownInProgress || NextNum(s) < SHUTDOWN
    ensures var c, base := counts[DataNum(s) := |typed|], Base(s);
      && base in c && c[base] <= |typed| && s.sent[s.assumed].events <= |typed|
      && (CullHarms(s) ==> base != DataNum(s) && c[base] != s.sent[s.assumed].events)
      && (!CullHarms(s) ==> base == DataNum(s) || c[base] == s.sent[s.assumed].events)
  {
    var num := DataNum(s);
    MarkSentOk(s, counts, typed, now);
    EventsMonotone(s.sent, counts, typed, s.assumed, |s.sent| - 1);
    assert forall i :: 0 <= i < |s.sent| ==> s.sent[i].num in counts && counts[s.sent[i].num] == s.sent[i].events;
    assert forall i :: 0 <= i < |s.sent| ==> s.sent[i].num <= Last(s.sent).num;
    if num in counts {
      assert counts[num := |typed|] == counts;
    }
    if CullShifts(s) && s.assumed + 1 < |s.sent| {
      NewIsAboveLast(s, counts, typed, now);
    }
  }

  lemma NewIsAboveLast(s: Sender, counts: map<nat, nat>, typed: seq<UserEvent>, now: nat)
    requires CountsOk(counts, typed) && ClientOk(s, counts, typed, now)
    requires s.ending.shutdownInProgress || NextNum(s) < SHUTDOWN
    requires DataNum(s) != Last(s.sent).num
    ensures DataNum(s) > Last(s.sent).num
  {
    NextNumAnnounces(s, counts, typed, now);
    assert Last(s.sent).num in counts;
  }

  /** An acknowledgment always tells the truth: it goes out when the state taken for received has all typing, so the one
    * after it has no other. */
  lemma AckIsTrue(s: Sender, counts: map<nat, nat>, typed: seq<UserEvent>, now: nat, rewrite: bool)
    requires CountsOk(counts, typed) && ClientOk(s, counts, typed, now)
    requires s.ending.shutdownInProgress || NextNum(s) < SHUTDOWN
    requires s.assumed < |s.sent| && s.Total() == s.sent[s.assumed].events
    ensures var m := SendEmptyAck(s, now, rewrite).out;
      m.Some? && InstructionOk(m.value, counts[NextNum(s) := |typed|], typed)
  {
    AckSays(s, now, rewrite);
    NextNumAnnounces(s, counts, typed, now);
    EventsMonotone(s.sent, counts, typed, s.assumed, s.assumed);
    if s.assumed + 1 < |s.sent| {
      EventsMonotone(s.sent, counts, typed, s.assumed, s.assumed + 1);
    }
    hide SendEmptyAck, NextNum;
    assert s.Total() == |typed|;
    assert typed[|typed|..|typed|] == [];
    assert forall i :: 0 <= i < |s.sent| ==> s.sent[i].num in counts && counts[s.sent[i].num] == s.sent[i].events;
  }

  // --- Ticks ---

  /** The tick sends typing from a state that a cull then shifts. */
  predicate TickHarms(s: Sender, t: Timing)
    requires s.sent != []
  {
    var s1 := CalculateTimers(s, t);
    && !s.ending.finished
    && (t.check >= s1.timers.nextAckTime || t.check >= s1.timers.nextSendTime)
    && s1.Total() != s1.sent[s1.assumed].events
    && CullHarms(s1)
  }

  lemma DueTells(s: Sender, counts: map<nat, nat>, typed: seq<UserEvent>, t: Timing, rewrite: bool)
    requires CountsOk(counts, typed) && ClientOk(s, counts, typed, t.mark) && s.assumed < |s.sent|
    requires s.ending.shutdownInProgress || NextNum(s) < SHUTDOWN
    ensures var o, data := TickSends(s, t, rewrite), s.Total() != s.sent[s.assumed].events;
      var due := t.check >= s.timers.nextAckTime || t.check >= s.timers.nextSendTime;
      && (o.out.Some? ==> (InstructionOk(o.out.value, counts[o.out.value.newNum := |typed|], typed)
                           <==> !(due && data && CullHarms(s))))
      && (due && data ==> o.out.Some?)
  {
    hide SendEmptyAck, SendToReceiver, UserDiff, CullHarms, NextNum, DataNum, Base, InstructionOk, ClientOk, CountsOk;
    DataSays(s, UserDiff(s, s.sent[s.assumed].events), t.mark, t.after, rewrite);
    DataIsTrueExactly(s, counts, typed, t.mark, t.after, rewrite);
    AckSays(s, t.mark, rewrite);
    if s.Total() == s.sent[s.assumed].events {
      AckIsTrue(s, counts, typed, t.mark, rewrite);
    }
  }

  /** Whatever the readings of its clock, what a tick sends is true if and only if no such cull comes in between. */
  lemma TickIsTrueExactly(s: Sender, counts: map<nat, nat>, typed: seq<UserEvent>, t: Timing, rewrite: bool)
    requires CountsOk(counts, typed) && ClientOk(s, counts, typed, t.First()) && t.Rising()
    requires s.ending.shutdownInProgress || NextNum(s) < SHUTDOWN
    ensures var o := Tick(s, t, rewrite);
      && (o.out.Some? ==> (InstructionOk(o.out.value, counts[o.out.value.newNum := |typed|], typed) <==> !TickHarms(s, t)))
      && (TickHarms(s, t) ==> o.out.Some?)
  {
    Later(s, counts, typed, t.First(), t.mark);
    TimersOk(s, counts, typed, t.mark, t);
    hide CalculateTimers, TickSends, CullHarms, NextNum, InstructionOk, Ends, ClientOk, CountsOk;
    DueTells(CalculateTimers(s, t), counts, typed, t, rewrite);
  }

  // --- Steps ---

  predicate Harms(w: World, a: Action)
    requires Enabled(w, a)
  {
    a.Ticking? && TickHarms(w.client.value, a.t)
  }

  lemma NetExtended(w: World, counts: map<nat, nat>, typed: seq<UserEvent>)
    requires CountsOk(w.counts, w.typed) && Truthful(w)
    requires forall n :: n in w.counts ==> n in counts && counts[n] == w.counts[n]
    requires |w.typed| <= |typed| && forall n :: n in w.counts ==> typed[..w.counts[n]] == w.typed[..w.counts[n]]
    ensures NetTrue(w.net, counts, typed) && ServerTrue(w.server, counts, typed)
  {
    forall m | m in w.net ensures InstructionOk(m, counts, typed) {
      assert InstructionOk(m, w.counts, w.typed);
      if m.oldNum != m.newNum {
        var a, b := w.counts[m.oldNum], w.counts[m.newNum];
        assert typed[a..b] == typed[..b][a..b];
        assert w.typed[a..b] == w.typed[..b][a..b];
      }
    }
  }

  lemma TickTells(w: World, t: Timing, rewrite: bool, rest: Rest)
    requires Inv(w) && Truthful(w) && Enabled(w, Ticking(t, rewrite, rest))
    ensures Truthful(Next(w, Ticking(t, rewrite, rest))) <==> !TickHarms(w.client.value, t)
  {
    hide Tick, NextNum, CountsOk, ClientOk, InstructionOk, FileAfter, Others, DiskOk, AcksOk, TickHarms, NetOk, ServerOk;
    var s := w.client.value;
    Later(s, w.counts, w.typed, w.now, t.First());
    TickIsTrueExactly(s, w.counts, w.typed, t, rewrite);
    TickOk(s, w.counts, w.typed, t, rewrite);
    var o := Tick(s, t, rewrite);
    if o.out.Some? {
      var num := o.out.value.newNum;
      NumberFits(CalculateTimers(s, t), o, w.counts, w.typed, t.end);
      NetExtended(w, w.counts[num := |w.typed|], w.typed);
      OneMoreTrue(w.net, o.out.value, w.counts[num := |w.typed|], w.typed);
    }
  }

  lemma NumberFits(s: Sender, o: Outcome, counts: map<nat, nat>, typed: seq<UserEvent>, now: nat)
    requires SendsOk(s, o, counts, typed, now)
    ensures o.out.Some? && forall n :: n in counts ==> counts[o.out.value.newNum := |typed|][n] == counts[n]
  {
  }

  lemma OneMoreTrue(net: set<Instruction>, m: Instruction, counts: map<nat, nat>, typed: seq<UserEvent>)
    requires NetTrue(net, counts, typed)
    ensures NetTrue(net + {m}, counts, typed) <==> InstructionOk(m, counts, typed)
  {
    hide InstructionOk;
    assert m in net + {m};
  }

  lemma CrashTells(w: World, t: Timing, rewrite: bool, rest: Rest, n: nat)
    requires Inv(w) && Truthful(w) && Enabled(w, CrashInTick(t, rewrite, rest, n))
    ensures Truthful(Next(w, CrashInTick(t, rewrite, rest, n)))
  {
    hide Tick, NextNum, CountsOk, ClientOk, InstructionOk, FileAfter, Others, DiskOk, AcksOk, NetOk, ServerOk;
    var s := w.client.value;
    Later(s, w.counts, w.typed, w.now, t.First());
    TickOk(s, w.counts, w.typed, t, rewrite);
    var o := Tick(s, t, rewrite);
    if o.out.Some? {
      NumberFits(CalculateTimers(s, t), o, w.counts, w.typed, t.end);
      NetExtended(w, w.counts[o.out.value.newNum := |w.typed|], w.typed);
    }
  }

  lemma ServerTells(w: World, m: Instruction)
    requires Inv(w) && Truthful(w) && Enabled(w, ServerTaking(m))
    ensures Truthful(Next(w, ServerTaking(m)))
  {
    hide DiskOk, ClientOk, AcksOk, NetOk;
    assert InstructionOk(m, w.counts, w.typed);
    assert m.oldNum in w.server && m.newNum !in w.server;
    var a, b := w.counts[m.oldNum], w.counts[m.newNum];
    assert w.typed[..a] + w.typed[a..b] == w.typed[..b];
  }

  lemma TypingTells(w: World, keys: Bytes)
    requires Inv(w) && Truthful(w) && Running(w)
    ensures NetTrue(w.net, w.counts, TypedAfter(w, keys)) && ServerTrue(w.server, w.counts, TypedAfter(w, keys))
  {
    hide InstructionOk, DiskOk, AcksOk, NetOk, ServerOk, NetTrue, ServerTrue;
    var s := w.client.value;
    if !s.ending.shutdownInProgress && keys != [] && Growable(s) {
      GrowingIsNew(s, w.counts, w.typed, w.now, keys);
    }
    NetExtended(w, w.counts, TypedAfter(w, keys));
  }

  lemma ResizingTells(w: World, columns: nat, rows: nat)
    requires Inv(w) && Truthful(w)
    ensures NetTrue(w.net, w.counts, Resized(w.typed, columns, rows))
    ensures ServerTrue(w.server, w.counts, Resized(w.typed, columns, rows))
  {
    hide InstructionOk, DiskOk, AcksOk, NetOk, ServerOk, NetTrue, ServerTrue, ClientOk;
    NetExtended(w, w.counts, Resized(w.typed, columns, rows));
  }

  /** A step keeps all that was said true if and only if it is not such a tick. */
  lemma StepIsTrueExactly(w: World, a: Action)
    requires Inv(w) && Truthful(w) && Enabled(w, a)
    ensures Truthful(Next(w, a)) <==> !Harms(w, a)
  {
    hide Inv, NetTrue, ServerTrue, Tick, ProcessAcknowledgment, RewriteRecords, Replay, Restore, Reserve, TypedAfter, Type, Resize,
         FrontOf, FileAfter, TickHarms, Forget;
    match a
    case Ticking(t, rewrite, rest) => TickTells(w, t, rewrite, rest);
    case CrashInTick(t, rewrite, rest, n) => CrashTells(w, t, rewrite, rest, n);
    case ServerTaking(m) => ServerTells(w, m);
    case Typing(keys) => TypingTells(w, keys);
    case Resizing(columns, rows) => ResizingTells(w, columns, rows);
    case Resuming(_, _, _, columns, rows) => ResizingTells(w, columns, rows);
    case CrashInResume(_, _, _, columns, rows, _) => ResizingTells(w, columns, rows);
    case _ =>
  }

  // --- Runs ---

  /** No tick of the run names a state of other typing than its diff is from. */
  predicate Careful(w: World, run: seq<Action>)
    requires Runs(w, run)
    decreases |run|
  {
    run != [] ==> !Harms(w, run[0]) && Careful(Next(w, run[0]), run[1..])
  }

  /** All that is said and held is true, at the start and after each step. */
  ghost predicate AlwaysTruthful(w: World, run: seq<Action>)
    requires Runs(w, run)
    decreases |run|
  {
    Truthful(w) && (run != [] ==> AlwaysTruthful(Next(w, run[0]), run[1..]))
  }

  /** All instructions and all the server's states are true throughout a run if and only if the run is careful. */
  lemma {:induction false} RunIsTrueExactly(w: World, run: seq<Action>)
    requires Inv(w) && Truthful(w) && Runs(w, run)
    ensures AlwaysTruthful(w, run) <==> Careful(w, run)
    decreases |run|
  {
    hide Inv, Truthful, Enabled, Next, Harms;
    if run != [] {
      StepIsTrueExactly(w, run[0]);
      StepKeeps(w, run[0]);
      if !Harms(w, run[0]) {
        RunIsTrueExactly(Next(w, run[0]), run[1..]);
      } else {
        NotAlways(Next(w, run[0]), run[1..]);
      }
    }
  }

  lemma NotAlways(w: World, run: seq<Action>)
    requires Runs(w, run) && !Truthful(w)
    ensures !AlwaysTruthful(w, run)
  {
  }

  lemma {:induction false} TruthfulInTheEnd(w: World, run: seq<Action>)
    requires Runs(w, run) && AlwaysTruthful(w, run)
    ensures Truthful(After(w, run))
    decreases |run|
  {
    if run != [] {
      hide Truthful, Enabled, Next;
      TruthfulInTheEnd(Next(w, run[0]), run[1..]);
    }
  }

  lemma InitialTrue(now: nat, columns: nat, rows: nat)
    ensures Truthful(Initial(now, columns, rows))
  {
    hide Resize;
    var typed := Resized([], columns, rows);
    assert typed[..0] == [];
  }

  // --- A clock that is read once ---

  /** With one clock reading and times in order, either no state or every state is taken for received. */
  lemma {:induction false} AssumedFromZeroOrLast(sent: seq<SentState>, i: nat, t: Timing)
    requires 1 <= i <= |sent| && TimesOk(sent, t.now) && t.Still()
    requires i > 1 ==> t.now < sent[1].timestamp + t.timeout + ACK_DELAY
    ensures AssumedFrom(sent, i, t) == 0 || AssumedFrom(sent, i, t) == |sent| - 1
    decreases |sent| - i
  {
    if i < |sent| && t.LoopTime(i) < sent[i].timestamp + t.timeout + ACK_DELAY {
      AssumedFromZeroOrLast(sent, i + 1, t);
    }
  }

  lemma AssumedZeroOrLast(sent: seq<SentState>, t: Timing)
    requires sent != [] && TimesOk(sent, t.now) && t.Still()
    ensures Assumed(sent, t) == 0 || Assumed(sent, t) == |sent| - 1
  {
    AssumedFromZeroOrLast(sent, 1, t);
  }

  lemma StillHarmsNot(s: Sender, counts: map<nat, nat>, typed: seq<UserEvent>, t: Timing)
    requires ClientOk(s, counts, typed, t.now) && t.Still()
    ensures !TickHarms(s, t)
  {
    hide Assumed, AckDeadline, SendDeadline, DataNum;
    AssumedZeroOrLast(s.sent, t);
    assert CalculateTimers(s, t).assumed == Assumed(s.sent, t);
    hide CalculateTimers;
  }

  predicate StillClock(run: seq<Action>) { forall a :: a in run && a.Ticking? ==> a.t.Still() }

  /** A run whose ticks read the clock once each is careful. */
  lemma {:induction false} StillIsCareful(w: World, run: seq<Action>)
    requires Inv(w) && Runs(w, run) && StillClock(run)
    ensures Careful(w, run)
    decreases |run|
  {
    hide Inv, Next, TickHarms;
    if run != [] {
      StillStep(w, run[0]);
      StepKeeps(w, run[0]);
      StillIsCareful(Next(w, run[0]), run[1..]);
    }
  }

  lemma StillStep(w: World, a: Action)
    requires Inv(w) && Enabled(w, a) && (a.Ticking? ==> a.t.Still())
    ensures !Harms(w, a)
  {
    hide NetOk, ServerOk, AcksOk, DiskOk, TickHarms;
    if a.Ticking? {
      Later(w.client.value, w.counts, w.typed, w.now, a.t.now);
      StillHarmsNot(w.client.value, w.counts, w.typed, a.t);
    }
  }

  // --- What happens otherwise ---

  /** The typing after such a tick: the instruction carries events its base has already, so a server that holds the base
    * and takes it has them twice. */
  lemma HarmedTypingArrivesTwice(w: World, t: Timing, rewrite: bool, rest: Rest)
    requires Inv(w) && Truthful(w) && Enabled(w, Ticking(t, rewrite, rest)) && TickHarms(w.client.value, t)
    ensures var o := Tick(w.client.value, t, rewrite);
      o.out.Some? &&
      (var m, v, s1 := o.out.value, Next(w, Ticking(t, rewrite, rest)), CalculateTimers(w.client.value, t);
       var from := s1.sent[s1.assumed].events;
       && m.oldNum in w.counts && from < w.counts[m.oldNum] <= |w.typed|
       && m.diff == w.typed[from..]
       && (m.oldNum in w.server && m.newNum !in w.server && m.newNum >= m.throwawayNum ==>
             && Enabled(v, ServerTaking(m))
             && m.newNum in Next(v, ServerTaking(m)).server
             && Next(v, ServerTaking(m)).server[m.newNum] == w.typed[..w.counts[m.oldNum]] + w.typed[from..]))
  {
    var s := w.client.value;
    Later(s, w.counts, w.typed, w.now, t.First());
    HarmedTick(s, w.counts, w.typed, t, rewrite);
    var o := Tick(s, t, rewrite);
    TickSendsToNet(w, t, rewrite, rest);
    hide Tick, TickHarms, Inv, CalculateTimers, NetTrue, Next;
    var m, v := o.out.value, Next(w, Ticking(t, rewrite, rest));
    if m.oldNum in w.server && m.newNum !in w.server && m.newNum >= m.throwawayNum {
      ServerTakes(v, m);
    }
  }

  lemma TickSendsToNet(w: World, t: Timing, rewrite: bool, rest: Rest)
    requires Enabled(w, Ticking(t, rewrite, rest)) && Tick(w.client.value, t, rewrite).out.Some?
    ensures var v := Next(w, Ticking(t, rewrite, rest));
      v.server == w.server && Tick(w.client.value, t, rewrite).out.value in v.net
  {
    hide Tick, FileAfter, Others, FrontOf;
  }

  /** The server puts the diff after what the state it is from stands for. */
  lemma ServerTakes(v: World, m: Instruction)
    requires m in v.net && m.oldNum in v.server && m.newNum !in v.server && m.newNum >= m.throwawayNum
    ensures Enabled(v, ServerTaking(m))
    ensures m.newNum in Next(v, ServerTaking(m)).server
         && Next(v, ServerTaking(m)).server[m.newNum] == v.server[m.oldNum] + m.diff
  {
    hide FrontOf;
  }

  lemma HarmedTick(s: Sender, counts: map<nat, nat>, typed: seq<UserEvent>, t: Timing, rewrite: bool)
    requires CountsOk(counts, typed) && ClientOk(s, counts, typed, t.First()) && t.Rising()
    requires s.ending.shutdownInProgress || NextNum(s) < SHUTDOWN
    requires TickHarms(s, t)
    ensures var o := Tick(s, t, rewrite);
      o.out.Some? &&
      (var m, s1 := o.out.value, CalculateTimers(s, t);
       var from := s1.sent[s1.assumed].events;
       m.oldNum in counts && from < counts[m.oldNum] <= |typed| && m.diff == typed[from..])
  {
    Later(s, counts, typed, t.First(), t.mark);
    TimersOk(s, counts, typed, t.mark, t);
    var s1 := CalculateTimers(s, t);
    hide CalculateTimers, NextNum, Ends, DataNum;
    HarmedBase(s1, counts, typed, t.mark);
    var diff := UserDiff(s1, s1.sent[s1.assumed].events);
    hide SendToReceiver, UserDiff, CullHarms, ClientOk, CountsOk, Base;
    DataSays(s1, diff, t.mark, t.after, rewrite);
  }

  lemma HarmedBase(s: Sender, counts: map<nat, nat>, typed: seq<UserEvent>, now: nat)
    requires CountsOk(counts, typed) && ClientOk(s, counts, typed, now) && s.assumed < |s.sent| && CullHarms(s)
    ensures Base(s) in counts && s.sent[s.assumed].events < counts[Base(s)] <= |typed|
    ensures UserDiff(s, s.sent[s.assumed].events) == typed[s.sent[s.assumed].events..]
  {
    hide DataNum, UserDiff;
    DiffIsTyped(s, counts, typed, now, s.assumed);
    EventsMonotone(s.sent, counts, typed, s.assumed, s.assumed + 1);
  }

  // --- Runs one after the other ---

  lemma {:induction false} RunsOn(w: World, first: seq<Action>, more: seq<Action>)
    requires Runs(w, first) && Runs(After(w, first), more)
    ensures Runs(w, first + more) && After(w, first + more) == After(After(w, first), more)
    ensures Careful(w, first) && Careful(After(w, first), more) ==> Careful(w, first + more)
    decreases |first|
  {
    hide Enabled, Next, Harms;
    if first == [] {
      assert first + more == more;
    } else {
      RunsOn(Next(w, first[0]), first[1..], more);
      assert (first + more)[1..] == first[1..] + more;
    }
  }

  lemma RunsOne(w: World, a: Action)
    requires Enabled(w, a)
    ensures Runs(w, [a]) && After(w, [a]) == Next(w, a) && (Careful(w, [a]) <==> !Harms(w, a))
  {
    hide Enabled, Next, Harms;
    assert [a][1..] == [];
  }
}
