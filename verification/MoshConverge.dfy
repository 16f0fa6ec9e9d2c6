/** That a server comes to hold all typing for good: what it was given it keeps, from any session it can catch up, and in
  * an endless session that lets a late tick's instruction through again and again it does. */
module MoshConverge {
  import opened MoshTypes
  import opened MoshSender
  import opened MoshSession
  import opened MoshSafety
  import opened MoshTyping
  import opened MoshGuarantees

  // --- What the server was given it keeps ---

  /** The server holds a state of at least so many events. */
  ghost predicate Holds(w: World, events: nat) {
    exists n :: n in w.server && n in w.counts && w.counts[n] >= events
  }

  lemma FrontStays(w: World, m: Instruction)
    requires Inv(w) && Enabled(w, ServerTaking(m))
    ensures w.front in w.server && w.front in w.counts && m.throwawayNum <= w.front
  {
    hide CountsOk, ClientOk, DiskOk;
  }

  lemma TakingHolds(w: World, m: Instruction, events: nat)
    requires Inv(w) && Enabled(w, ServerTaking(m)) && Holds(w, events)
    ensures Holds(Next(w, ServerTaking(m)), events)
  {
    hide FrontOf, ClientOk, DiskOk, NetOk, AcksOk;
    FrontStays(w, m);
    var v := Next(w, ServerTaking(m));
    var n: nat :| n in w.server && n in w.counts && w.counts[n] >= events;
    if n >= m.throwawayNum {
      assert n in v.server;
    } else {
      assert w.front in v.server;
    }
  }

  lemma StepHolds(w: World, a: Action, events: nat)
    requires Inv(w) && Enabled(w, a) && Holds(w, events)
    ensures Holds(Next(w, a), events)
  {
    if a.ServerTaking? {
      TakingHolds(w, a.m, events);
    } else {
      StepFreezes(w, a);
      OnlyTakingServes(w, a);
      hide Inv, Enabled, Next;
      var n: nat :| n in w.server && n in w.counts && w.counts[n] >= events;
      assert n in Next(w, a).server && n in Next(w, a).counts;
    }
  }

  lemma OnlyTakingServes(w: World, a: Action)
    requires Enabled(w, a) && !a.ServerTaking?
    ensures Next(w, a).server == w.server
  {
    hide Tick, ProcessAcknowledgment, RewriteRecords, Replay, FrontOf, FileAfter, Resume, TypedAfter, Type, Resize, Waited;
  }

  lemma {:induction false} RunHolds(w: World, run: seq<Action>, events: nat)
    requires Inv(w) && Runs(w, run) && Holds(w, events)
    ensures Holds(After(w, run), events)
    decreases |run|
  {
    hide Inv, Enabled, Next, Holds;
    if run != [] {
      StepHolds(w, run[0], events);
      StepKeeps(w, run[0]);
      RunHolds(Next(w, run[0]), run[1..], events);
    }
  }

  /** Whatever comes, crashes and throwaways too: what a state of the server held stays the beginning of one it holds. */
  lemma ServerNeverGoesBack(w: World, run: seq<Action>, n: nat) returns (k: nat)
    requires CarefullyReachable(w) && Runs(w, run) && Careful(w, run) && n in w.server
    ensures k in After(w, run).server && w.server[n] <= After(w, run).server[k]
  {
    hide Inv, Truthful, Runs, After, CarefullyReachable, Careful;
    CarefulKeeps(w);
    ServerSays(w, n);
    var v := After(w, run);
    RunHolds(w, run, w.counts[n]);
    RunIsTrueExactly(w, run);
    TruthfulInTheEnd(w, run);
    AnnouncedNeverChanges(w, run);
    k :| k in v.server && k in v.counts && v.counts[k] >= w.counts[n];
    ServerSays(v, k);
    assert v.typed[..v.counts[k]][..w.counts[n]] == v.typed[..w.counts[n]];
  }

  lemma ServerSays(w: World, n: nat)
    requires Truthful(w) && n in w.server
    ensures n in w.counts && w.counts[n] <= |w.typed| && w.server[n] == w.typed[..w.counts[n]]
  {
    hide NetTrue;
  }

  // --- From any session the server can catch up ---

  /** The server holds everything typed. */
  ghost predicate AllThere(w: World) { exists n :: n in w.server && w.server[n] == w.typed }

  lemma HoldsAll(w: World)
    requires Truthful(w)
    ensures Holds(w, |w.typed|) <==> AllThere(w)
  {
    hide NetTrue;
    if Holds(w, |w.typed|) {
      var n: nat :| n in w.server && n in w.counts && w.counts[n] >= |w.typed|;
      ServerSays(w, n);
      assert w.typed[..|w.typed|] == w.typed;
    }
    if AllThere(w) {
      var n: nat :| n in w.server && w.server[n] == w.typed;
      ServerSays(w, n);
    }
  }

  /** A client that can send. */
  predicate GoesForth(w: World) {
    Running(w) && !w.client.value.ending.shutdownInProgress && !w.client.value.ending.finished
    && NextNum(w.client.value) < SHUTDOWN
  }

  /** What is acknowledged is there. */
  lemma AcknowledgedIsThere(w: World)
    requires Inv(w) && Truthful(w) && w.client.Some? && w.client.value.Total() == w.client.value.sent[0].events
    ensures AllThere(w)
  {
    hide NetTrue, NetOk, DiskOk;
    assert w.front in w.server && w.counts[w.front] == |w.typed|;
    HeldIsTyped(w, w.front);
  }

  /** A clock late enough, a millisecond going by after the deadlines are worked out. */
  function LateTiming(s: Sender, now: nat): Timing
    requires s.sent != []
  {
    var time := now + Last(s.sent).timestamp + s.timers.mindelayClock + 1000 + ACK_DELAY;
    Timing([], time, time + 1, time + 1, time + 1, time + 1, 1000, 250)
  }

  /** Whatever was lost, from any session with a client that can send there are three steps at most to the server holding
    * everything typed: hearing from it, a tick, and the server taking what that sends. */
  lemma CanAlwaysCatchUp(w: World) returns (run: seq<Action>)
    requires CarefullyReachable(w) && GoesForth(w)
    ensures Runs(w, run) && Careful(w, run) && After(w, run).typed == w.typed && AllThere(After(w, run))
  {
    CarefulKeeps(w);
    if w.client.value.Total() == w.client.value.sent[0].events {
      AcknowledgedIsThere(w);
      return [];
    }
    var t := LateTiming(w.client.value, w.now);
    var hear := Hearing(w.front, Some(Change(w.client.value.ackNum, t.now, true)));
    HearsTheFront(w, hear, t);
    hide Inv, Truthful, CarefullyReachable, Enabled, Next, LateTiming, AllThere;
    var w1 := Next(w, hear);
    CarefulStep(w, hear);
    RunsOne(w, hear);
    var more := LateTickServes(w1, t);
    RunsOn(w, [hear], more);
    run := [hear] + more;
  }

  lemma CarefulStep(w: World, a: Action)
    requires CarefullyReachable(w) && Enabled(w, a) && !Harms(w, a)
    ensures CarefullyReachable(Next(w, a))
  {
    hide Runs, After, Initial, Enabled, Next, Careful, Harms;
    var now: nat, columns: nat, rows: nat, run: seq<Action> :|
      && Sized(columns, rows) && Runs(Initial(now, columns, rows), run) && Careful(Initial(now, columns, rows), run)
      && w == After(Initial(now, columns, rows), run);
    RunsOne(w, a);
    RunsOn(Initial(now, columns, rows), run, [a]);
  }

  /** Hearing an acknowledgment of the front only renews the time the server was heard. */
  lemma HearsTheFront(w: World, hear: Action, t: Timing)
    requires Inv(w) && GoesForth(w) && t == LateTiming(w.client.value, w.now)
    requires hear == Hearing(w.front, Some(Change(w.client.value.ackNum, t.now, true)))
    ensures Enabled(w, hear) && !Harms(w, hear)
    ensures var v := Next(w, hear);
      && GoesForth(v) && v.typed == w.typed && v.now == w.now
      && v.client.value.Total() == w.client.value.Total() && v.client.value.sent == w.client.value.sent
      && LateEnough(v.client.value, t) && t.Rising() && t.First() >= v.now
  {
    hide NetOk, ServerOk, DiskOk, CountsOk, FrontOf, FileAfter;
    var s := w.client.value;
    assert DropBelow(s.sent, s.sent[0].num) == s.sent;
    assert s.sent[0].num == w.front && w.front in w.acks;
  }

  lemma LateTickServes(w: World, t: Timing) returns (run: seq<Action>)
    requires CarefullyReachable(w) && GoesForth(w) && t.Rising() && t.First() >= w.now
    requires w.client.value.Total() != w.client.value.sent[0].events && LateEnough(w.client.value, t)
    ensures Runs(w, run) && Careful(w, run) && After(w, run).typed == w.typed && AllThere(After(w, run))
  {
    var rest := Rest([], []);
    var tick := Ticking(t, false, rest);
    CarefulKeeps(w);
    LostTypingArrives(w, t, false, rest);
    NothingHarmed(w, t);
    TickTypes(w, t, false, rest);
    RunsOne(w, tick);
    hide Inv, Truthful, CarefullyReachable, Tick, Enabled, Next, LateEnough;
    var v, m := Next(w, tick), Tick(w.client.value, t, false).out.value;
    run := [tick];
    if m.newNum !in w.server {
      TakingTypes(v, m);
      RunsOne(v, ServerTaking(m));
      RunsOn(w, [tick], [ServerTaking(m)]);
      run := [tick] + [ServerTaking(m)];
    }
  }

  lemma BeforeTick(w: World, t: Timing, rewrite: bool, rest: Rest)
    requires Inv(w) && Enabled(w, Ticking(t, rewrite, rest))
    ensures var s := w.client.value;
      && CountsOk(w.counts, w.typed) && ClientOk(s, w.counts, w.typed, t.First()) && t.Rising()
      && (s.ending.shutdownInProgress || NextNum(s) < SHUTDOWN) && s.sent != [] && s.sent[0].num == w.front
  {
    hide CountsOk, NetOk, ServerOk, AcksOk, DiskOk, NextNum;
    Later(w.client.value, w.counts, w.typed, w.now, t.First());
  }

  lemma HarmIsInTick(w: World, t: Timing, rewrite: bool, rest: Rest)
    requires Enabled(w, Ticking(t, rewrite, rest)) && !TickHarms(w.client.value, t)
    ensures !Harms(w, Ticking(t, rewrite, rest))
  {
    hide TickHarms, NextNum;
  }

  lemma NothingHarmed(w: World, t: Timing)
    requires CarefullyReachable(w) && Enabled(w, Ticking(t, false, Rest([], [])))
    requires var o := Tick(w.client.value, t, false); o.out.Some? && o.out.value.oldNum == w.front
    ensures !Harms(w, Ticking(t, false, Rest([], [])))
  {
    hide Inv, Tick, TickHarms, ClientOk, CountsOk, Truthful, CarefullyReachable, NextNum, Harms, t.Rising;
    CarefulKeeps(w);
    BeforeTick(w, t, false, Rest([], []));
    FrontIsNotShifted(w.client.value, w.counts, w.typed, t, false);
    HarmIsInTick(w, t, false, Rest([], []));
  }

  lemma TickTypes(w: World, t: Timing, rewrite: bool, rest: Rest)
    requires Enabled(w, Ticking(t, rewrite, rest))
    ensures var v := Next(w, Ticking(t, rewrite, rest)); v.typed == w.typed && v.server == w.server
  {
    hide Tick, FileAfter, FrontOf;
  }

  lemma TakingTypes(w: World, m: Instruction)
    requires Enabled(w, ServerTaking(m))
    ensures Next(w, ServerTaking(m)).typed == w.typed && !Harms(w, ServerTaking(m))
  {
    hide FrontOf;
  }

  // --- Endless sessions ---

  predicate IsStep(states: nat -> World, acts: nat -> Action, i: nat) {
    Enabled(states(i), acts(i)) && !Harms(states(i), acts(i)) && states(i + 1) == Next(states(i), acts(i))
  }

  /** A session that goes on for ever, without a tick that harms. */
  ghost predicate Endless(states: nat -> World, acts: nat -> Action) {
    && CarefullyReachable(states(0))
    && forall i: nat :: IsStep(states, acts, i)
  }

  /** A tick late enough, of a client that can send. */
  predicate LateTick(w: World, a: Action) {
    a.Ticking? && GoesForth(w) && LateEnough(w.client.value, a.t)
  }

  /** The number of what a tick sends. */
  function SentNum(w: World, a: Action): Option<nat>
    requires LateTick(w, a)
  {
    var out := Tick(w.client.value, a.t, a.rewrite).out;
    if out.Some? then Some(out.value.newNum) else None
  }

  /** What the tick sends is among the server's states some time. */
  ghost predicate GetsThrough(states: nat -> World, acts: nat -> Action, j: nat) {
    && LateTick(states(j), acts(j))
    && (SentNum(states(j), acts(j)).Some? ==>
          exists i: nat :: i > j && SentNum(states(j), acts(j)).value in states(i).server)
  }

  /** Again and again a late tick's instruction gets through. */
  ghost predicate Fair(states: nat -> World, acts: nat -> Action) {
    forall k: nat :: GetsThroughAfter(states, acts, k)
  }

  ghost predicate GetsThroughAfter(states: nat -> World, acts: nat -> Action, k: nat) {
    exists j: nat :: j >= k && GetsThrough(states, acts, j)
  }

  lemma {:induction false} AllReached(states: nat -> World, acts: nat -> Action, i: nat)
    requires Endless(states, acts)
    ensures CarefullyReachable(states(i))
  {
    hide CarefullyReachable, Enabled, Next, Harms;
    if i > 0 {
      AllReached(states, acts, i - 1);
      assert IsStep(states, acts, i - 1);
      CarefulStep(states(i - 1), acts(i - 1));
    }
  }

  /** A number announced stands for the same ever after. */
  lemma {:induction false} AnnouncedForEver(states: nat -> World, acts: nat -> Action, j: nat, i: nat, n: nat)
    requires Endless(states, acts) && j <= i && n in states(j).counts
    ensures n in states(i).counts && states(i).counts[n] == states(j).counts[n]
    decreases i
  {
    hide CarefullyReachable, Enabled, Next, Harms, Inv, Truthful;
    if j < i {
      AnnouncedForEver(states, acts, j, i - 1, n);
      AllReached(states, acts, i - 1);
      CarefulKeeps(states(i - 1));
      assert IsStep(states, acts, i - 1);
      StepFreezes(states(i - 1), acts(i - 1));
    }
  }

  lemma {:induction false} HeldForEver(states: nat -> World, acts: nat -> Action, j: nat, i: nat, events: nat)
    requires Endless(states, acts) && j <= i && Holds(states(j), events)
    ensures Holds(states(i), events)
    decreases i
  {
    hide CarefullyReachable, Enabled, Next, Harms, Inv, Truthful, Holds;
    if j < i {
      HeldForEver(states, acts, j, i - 1, events);
      AllReached(states, acts, i - 1);
      CarefulKeeps(states(i - 1));
      assert IsStep(states, acts, i - 1);
      StepHolds(states(i - 1), acts(i - 1), events);
    }
  }

  /** What a late tick sends stands for everything typed. */
  lemma LateTickSends(w: World, a: Action)
    requires CarefullyReachable(w) && LateTick(w, a) && Enabled(w, a)
    requires w.client.value.Total() != w.client.value.sent[0].events
    ensures SentNum(w, a).Some?
    ensures SentNum(w, a).value in Next(w, a).counts && Next(w, a).counts[SentNum(w, a).value] == |w.typed|
  {
    LostTypingArrives(w, a.t, a.rewrite, a.rest);
    hide Tick, FileAfter, FrontOf, LateEnough;
  }

  /** When no more is typed, from some point on the server holds everything typed for good. */
  lemma TypingConverges(states: nat -> World, acts: nat -> Action, quiet: nat) returns (done: nat)
    requires Endless(states, acts) && Fair(states, acts)
    requires forall i: nat :: i >= quiet ==> states(i).typed == states(quiet).typed
    ensures done >= quiet && forall i: nat :: i >= done ==> AllThere(states(i))
  {
    hide CarefullyReachable, Enabled, Next, Harms, Inv, Truthful, Tick, LateEnough;
    assert GetsThroughAfter(states, acts, quiet);
    var j: nat :| j >= quiet && GetsThrough(states, acts, j);
    var w, a, total := states(j), acts(j), |states(quiet).typed|;
    AllReached(states, acts, j);
    CarefulKeeps(w);
    assert IsStep(states, acts, j);
    if w.client.value.Total() == w.client.value.sent[0].events {
      AcknowledgedIsThere(w);
      HoldsAll(w);
      done := j;
    } else {
      LateTickSends(w, a);
      var n := SentNum(w, a).value;
      var i: nat :| i > j && n in states(i).server;
      AnnouncedForEver(states, acts, j + 1, i, n);
      done := i;
      assert Holds(states(i), total);
    }
    forall i: nat | i >= done ensures AllThere(states(i)) {
      HeldForEver(states, acts, done, i, total);
      AllReached(states, acts, i);
      CarefulKeeps(states(i));
      HoldsAll(states(i));
    }
  }
}
