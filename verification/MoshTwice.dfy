/** A run in which typing arrives twice: a client held up while it looks at the states it has sent takes some of them for
  * received, and the new state pushes out the one its diff is made from. */
module MoshTwice {
  import opened MoshTypes
  import opened MoshSender
  import opened MoshSession
  import opened MoshSafety
  import opened MoshTyping

  // --- A client that sends each key as it is typed ---

  const START: nat := 100000
  const KEY := UserEvent([65], 0, 0)

  /** The screen's size and then keys. */
  function Keys(n: nat): (e: seq<UserEvent>)
    ensures |e| == n
  {
    seq(n, i requires 0 <= i < n => if i == 0 then UserEvent([], 80, 24) else KEY)
  }

  function Time(k: nat): nat { START + 21 * k }

  function Ladder(n: nat): (sent: seq<SentState>)
    ensures |sent| == n && forall i :: 0 <= i < n ==> sent[i] == SentState(i, i, Time(i))
  {
    seq(n, i requires 0 <= i < n => SentState(i, i, Time(i)))
  }

  /** Of n events typed the first k are sent, each under a number of its own. */
  predicate Sending(s: Sender, k: nat, n: nat) {
    && s.events == Keys(n) && s.eventBase == 0 && s.sent == Ladder(k + 1) && s.ackNum == 0
    && s.timers.mindelayClock == NEVER
    && s.ending == Ending(false, 0, 0, 0, false) && s.book == Book(false, 0, 0, 0)
  }

  /** The readings of the k-th tick. The clock goes on by a millisecond within it. */
  function Quick(k: nat): Timing
    requires k > 0
  {
    Timing([], Time(k) - 1, Time(k), Time(k), Time(k), Time(k), 1000, 20)
  }

  lemma {:induction false} AllAssumed(sent: seq<SentState>, t: Timing, i: nat)
    requires 1 <= i <= |sent|
    requires forall j :: i <= j < |sent| ==> t.LoopTime(j) < sent[j].timestamp + t.timeout + ACK_DELAY
    ensures AssumedFrom(sent, i, t) == |sent| - 1
    decreases |sent| - i
  {
    if i < |sent| {
      AllAssumed(sent, t, i + 1);
    }
  }

  lemma QuickTimers(s: Sender, k: nat)
    requires k < 31 && Sending(s, k, k + 1)
    ensures var s1 := CalculateTimers(s, Quick(k + 1));
      && s1.sent == s.sent && s1.events == s.events && s1.eventBase == 0 && s1.ackNum == 0
      && s1.assumed == k && s1.ending == s.ending && s1.book == s.book
      && s1.timers.nextSendTime == Time(k + 1)
  {
    AllAssumed(s.sent, Quick(k + 1), 1);
    hide AssumedFrom, AckDeadline;
    assert s.sent[0].events == 0 && Last(s.sent) == SentState(k, k, Time(k));
    assert s.events[0..] == s.events;
  }

  lemma QuickSends(s1: Sender, k: nat)
    requires k < 31 && s1.sent == Ladder(k + 1) && s1.events == Keys(k + 1) && s1.eventBase == 0 && s1.ackNum == 0
    requires s1.assumed == k && s1.ending == Ending(false, 0, 0, 0, false) && s1.book == Book(false, 0, 0, 0)
    requires s1.timers.nextSendTime == Time(k + 1)
    ensures var t := Quick(k + 1);
      var o := TickSends(s1, t, false);
      && Sending(o.sender, k + 1, k + 1)
      && o.out == Some(Instruction(k, k + 1, 0, 0, Keys(k + 1)[k..]))
      && !CullHarms(s1)
  {
    assert Last(s1.sent) == SentState(k, k, Time(k));
    assert s1.sent + [SentState(k + 1, k + 1, Time(k + 1))] == Ladder(k + 2);
  }

  lemma QuickTick(s: Sender, k: nat)
    requires k < 31 && Sending(s, k, k + 1)
    ensures var o := Tick(s, Quick(k + 1), false);
      && Sending(o.sender, k + 1, k + 1)
      && o.out == Some(Instruction(k, k + 1, 0, 0, Keys(k + 1)[k..]))
      && !TickHarms(s, Quick(k + 1)) && NextNum(s) == k + 1
  {
    QuickTimers(s, k);
    QuickSends(CalculateTimers(s, Quick(k + 1)), k);
    assert Last(s.sent) == SentState(k, k, Time(k));
    hide CalculateTimers, TickSends, CullHarms;
  }

  lemma TypedKey(s: Sender, k: nat)
    requires Sending(s, k, k) && k > 0
    ensures Sending(Type(s, [65]).sender, k, k + 1) && !(Growable(s) && Keys(k) != [])
  {
    assert Last(s.sent) == SentState(k, k, Time(k));
    assert Keys(k) + [KEY] == Keys(k + 1);
  }

  /** The server takes each state as it is sent, but no acknowledgment arrives. */
  predicate Climbed(w: World, k: nat) {
    && w.client.Some? && Sending(w.client.value, k, k + 1) && w.disk.None? && w.typed == Keys(k + 1) && w.now == Time(k)
    && (forall i: nat :: i <= k ==> i in w.server)
    && (forall n :: n in w.server ==> n <= k)
  }

  lemma ClimbOn(w: World, k: nat) returns (run: seq<Action>)
    requires k < 31 && Climbed(w, k)
    ensures Runs(w, run) && Careful(w, run) && Climbed(After(w, run), k + 1)
  {
    hide Tick, TickHarms, Type, Sending, NextNum;
    var t := Quick(k + 1);
    ClientSends(w, k);
    QuickTick(w.client.value, k);
    var tick := Ticking(t, false, Rest([], []));
    RunsOne(w, tick);
    var w1 := Next(w, tick);
    var m := Instruction(k, k + 1, 0, 0, Keys(k + 1)[k..]);
    var take := ServerTaking(m);
    assert m in w1.net && w1.server == w.server && k in w1.server;
    RunsOne(w1, take);
    var w2 := Next(w1, take);
    ClientSends1(w1.client.value, k + 1, k + 1);
    TypedKey(w1.client.value, k + 1);
    RunsOne(w2, Typing([65]));
    var w3 := Next(w2, Typing([65]));
    assert Keys(k + 1) + [KEY] == Keys(k + 2);
    RunsOn(w, [tick], [take]);
    RunsOn(w, [tick] + [take], [Typing([65])]);
    run := [tick] + [take] + [Typing([65])];
    assert w3.client.value == Type(w1.client.value, [65]).sender;
    assert w3.typed == Keys(k + 2);
  }

  lemma ClientSends(w: World, k: nat)
    requires Climbed(w, k)
    ensures Running(w)
  {
  }

  lemma ClientSends1(s: Sender, k: nat, n: nat)
    requires Sending(s, k, n)
    ensures s.sent != [] && !s.ending.shutdownInProgress
  {
  }

  lemma {:induction false} Climb(k: nat) returns (run: seq<Action>)
    requires k <= 31
    ensures Runs(Initial(START, 80, 24), run) && Careful(Initial(START, 80, 24), run)
    ensures Climbed(After(Initial(START, 80, 24), run), k)
  {
    var w := Initial(START, 80, 24);
    if k == 0 {
      run := [];
      assert Sending(w.client.value, 0, 1);
    } else {
      hide Climbed, Initial, Sending;
      var before := Climb(k - 1);
      var more := ClimbOn(After(w, before), k - 1);
      RunsOn(w, before, more);
      run := before + more;
    }
  }

  // --- The tick that is held up ---

  /** The first 17 states are looked at in time, and then the client is held up for a second. */
  function Looks(): (loop: seq<nat>)
    ensures |loop| == 32 && forall i :: 0 <= i < 32 ==> loop[i] == Look(i)
  {
    seq(32, i requires 0 <= i < 32 => Look(i))
  }

  function Look(i: nat): nat { if i <= 17 then Time(31) else 102000 }

  function Late(): Timing {
    Timing(Looks(), 102000, 102001, 102001, 102001, 102001, 1000, 20)
  }

  lemma {:induction false} SomeAssumed(sent: seq<SentState>, t: Timing, i: nat, k: nat)
    requires 1 <= i <= k + 1 < |sent|
    requires forall j :: i <= j <= k ==> t.LoopTime(j) < sent[j].timestamp + t.timeout + ACK_DELAY
    requires t.LoopTime(k + 1) >= sent[k + 1].timestamp + t.timeout + ACK_DELAY
    ensures AssumedFrom(sent, i, t) == k
    decreases k + 1 - i
  {
    if i <= k {
      SomeAssumed(sent, t, i + 1, k);
    }
  }

  lemma LateTimers(s: Sender)
    requires Sending(s, 31, 32)
    ensures var s1 := CalculateTimers(s, Late());
      && s1.sent == s.sent && s1.events == s.events && s1.eventBase == 0 && s1.ackNum == 0
      && s1.assumed == 17 && s1.ending == s.ending && s1.book == s.book
      && s1.timers.nextSendTime == 102001
  {
    SomeAssumed(s.sent, Late(), 1, 17);
    hide AssumedFrom, AckDeadline;
    assert s.sent[0].events == 0 && Last(s.sent) == SentState(31, 31, Time(31));
    assert s.events[0..] == s.events;
  }

  lemma LateTick(s: Sender)
    requires Sending(s, 31, 32)
    ensures TickHarms(s, Late()) && NextNum(s) == 32
    ensures Tick(s, Late(), false).out == Some(Instruction(18, 32, 0, 0, Keys(32)[17..]))
  {
    LateTimers(s);
    var s1 := CalculateTimers(s, Late());
    assert Last(s.sent) == SentState(31, 31, Time(31));
    assert s1.sent[17].events == 17 && s1.sent[18].events == 18;
    hide CalculateTimers;
    LateData(s1);
    hide TickSends;
  }

  lemma LateData(s1: Sender)
    requires s1.sent == Ladder(32) && s1.events == Keys(32) && s1.eventBase == 0 && s1.ackNum == 0
    requires s1.assumed == 17 && s1.ending == Ending(false, 0, 0, 0, false) && s1.book == Book(false, 0, 0, 0)
    requires s1.timers.nextSendTime == 102001
    ensures CullHarms(s1) && TickSends(s1, Late(), false).out == Some(Instruction(18, 32, 0, 0, Keys(32)[17..]))
  {
    assert Last(s1.sent) == SentState(31, 31, Time(31));
    assert s1.sent[17] == SentState(17, 17, Time(17)) && s1.sent[18] == SentState(18, 18, Time(18));
    DataSays(s1, UserDiff(s1, 17), 102001, 102001, false);
    hide SendToReceiver, SendEmptyAck;
  }

  lemma LateRises()
    ensures Late().Rising() && Late().First() == Time(31)
  {
  }

  /** Then the key typed 18th is there twice. The run is careful up to its last tick, and from that tick on something
    * said to the server is not true. */
  lemma TypingCanArriveTwice() returns (before: seq<Action>, tick: Action, take: Action)
    ensures var w := Initial(START, 80, 24);
      && Runs(w, before) && Careful(w, before) && tick.Ticking? && Runs(w, before + [tick] + [take])
      && (var v := After(w, before + [tick] + [take]);
          && v.typed == Keys(32)
          && 32 in v.counts && v.counts[32] == 32
          && 32 in v.server && v.server[32] == Keys(32)[..18] + Keys(32)[17..] && |v.server[32]| == 33
          && !Truthful(v))
  {
    var w := Initial(START, 80, 24);
    before := Climb(31);
    var u := After(w, before);
    tick := Ticking(Late(), false, Rest([], []));
    var m := Instruction(18, 32, 0, 0, Keys(32)[17..]);
    take := ServerTaking(m);
    LastSteps(u, w, before);
    RunsOne(u, tick);
    RunsOne(Next(u, tick), take);
    hide Initial, Next, Enabled, Climbed, Truthful, Keys;
    RunsOn(w, before, [tick]);
    RunsOn(w, before + [tick], [take]);
  }

  lemma ClimbedIsTrue(w: World, before: seq<Action>)
    requires w == Initial(START, 80, 24) && Runs(w, before) && Careful(w, before)
    ensures Inv(After(w, before)) && Truthful(After(w, before))
  {
    hide Initial, Inv, Truthful;
    InitialOk(START, 80, 24);
    InitialTrue(START, 80, 24);
    RunIsTrueExactly(w, before);
    TruthfulInTheEnd(w, before);
    RunKeeps(w, before);
  }

  lemma LastSteps(u: World, w: World, before: seq<Action>)
    requires w == Initial(START, 80, 24) && Runs(w, before) && Careful(w, before) && u == After(w, before) && Climbed(u, 31)
    ensures var tick, take := Ticking(Late(), false, Rest([], [])), ServerTaking(Instruction(18, 32, 0, 0, Keys(32)[17..]));
      && Enabled(u, tick) && Enabled(Next(u, tick), take)
      && (var v := Next(Next(u, tick), take);
          && v.typed == Keys(32) && 32 in v.counts && v.counts[32] == 32
          && 32 in v.server && v.server[32] == Keys(32)[..18] + Keys(32)[17..] && |v.server[32]| == 33
          && !Truthful(v))
  {
    hide Tick, TickHarms, Inv, Initial, Keys, Looks, NetTrue;
    ClimbedIsTrue(w, before);
    HoldsEighteen(u);
    LateRises();
    LateTick(u.client.value);
    LateStep(u);
  }

  lemma LateStep(u: World)
    requires Climbed(u, 31) && 18 in u.server && u.server[18] == Keys(32)[..18] && 32 !in u.server
    requires Late().Rising() && Late().First() == Time(31) && NextNum(u.client.value) == 32
    requires Tick(u.client.value, Late(), false).out == Some(Instruction(18, 32, 0, 0, Keys(32)[17..]))
    ensures var tick, take := Ticking(Late(), false, Rest([], [])), ServerTaking(Instruction(18, 32, 0, 0, Keys(32)[17..]));
      && Enabled(u, tick) && Enabled(Next(u, tick), take)
      && (var v := Next(Next(u, tick), take);
          && v.typed == Keys(32) && 32 in v.counts && v.counts[32] == 32
          && 32 in v.server && v.server[32] == Keys(32)[..18] + Keys(32)[17..] && |v.server[32]| == 33
          && !Truthful(v))
  {
    ClientSends(u, 31);
    hide Tick, Keys, Looks, NetTrue, Late, Sending, NextNum, FrontOf;
    var x := Next(u, Ticking(Late(), false, Rest([], [])));
    assert x.server == u.server;
  }

  lemma HoldsEighteen(u: World)
    requires Inv(u) && Truthful(u) && Climbed(u, 31)
    ensures 18 in u.server && u.server[18] == Keys(32)[..18] && 32 !in u.server
  {
    hide NetOk, AcksOk, DiskOk, NetTrue;
    assert u.client.value.sent[18] == SentState(18, 18, Time(18));
    assert u.client.value.sent[18].num in u.counts;
  }
}
