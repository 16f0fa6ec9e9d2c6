/** A state whose record was journaled without the one that makes it the newest, over all that can come after. */
module MoshHalf {
  import opened MoshTypes
  import opened MoshReceiver
  import opened MoshScreens
  import opened MoshRefinement

  /** Held without being the newest, or no longer news. */
  predicate Passed(states: States, latest: nat, n: nat) { n in states || n <= latest }

  predicate Barred<S>(w: World<S>, n: nat) {
    && (w.client.Some? ==> Passed(w.client.value.states, w.client.value.latest, n))
    && (w.disk.Some? ==> Passed(w.disk.value.states, w.disk.value.latest, n))
  }

  lemma TakenBars<S(!new)>(vt: Vterm<S>, w: World<S>, m: HostInstruction, n: nat)
    requires Inv(vt, w) && Barred(w, n) && w.client.Some? && m in w.sent
    ensures Barred(Taken(vt, w, m), n) && Taken(vt, w, m).client.Some?
  {
    hide StatesOk, HostOk, HeldOk, KeptOk, StepsTo, NewOutput, Show, KeptLines, BaseScreen, DescribeScreen;
    if Accepts(w.client.value, m.oldNum, m.newNum) {
      var r := w.client.value;
      assert w.disk.Some? ==> w.disk.value == Saved(r.states, r.latest);
    }
  }

  lemma ThrownBars<S(!new)>(vt: Vterm<S>, w: World<S>, m: HostInstruction, n: nat)
    requires Lawful(vt) && Inv(vt, w) && Barred(w, n) && w.client.Some? && m in w.sent
    ensures TreeOk(w.client.value.states) && Barred(Thrown(vt, w, m.throwawayNum), n)
  {
    var r := w.client.value;
    assert TreeOk(r.states);
    FrontLeft(vt, w, m);
    if Folds(r.states, m.throwawayNum) {
      FoldOk(vt, r.states, w.host, m.throwawayNum);
      hide Fold, Inv, Lawful, TreeOk, Crowded;
    }
  }

  lemma DeliveringBars<S(!new)>(vt: Vterm<S>, w: World<S>, m: HostInstruction, n: nat)
    requires Lawful(vt) && Inv(vt, w) && Barred(w, n) && Enabled(vt, w, Delivering(m))
    ensures Barred(Next(vt, w, Delivering(m)), n)
  {
    hide Inv, Taken, Thrown, Barred, Lawful;
    TakenBars(vt, w, m, n);
    TakenKeeps(vt, w, m);
    TakenRuns(vt, w, m);
    ThrownBars(vt, Taken(vt, w, m), m, n);
  }

  lemma StepBars<S(!new)>(vt: Vterm<S>, w: World<S>, a: Action<S>, n: nat)
    requires Lawful(vt) && Inv(vt, w) && Barred(w, n) && Enabled(vt, w, a)
    ensures Barred(Next(vt, w, a), n)
  {
    hide Taken, Thrown, Inv, Lawful, NewState, StepsTo;
    match a
    case Delivering(m) => DeliveringBars(vt, w, m, n);
    case CrashBeforeFold(m) => TakenBars(vt, w, m, n);
    case _ =>
  }

  lemma {:induction false} RunBars<S(!new)>(vt: Vterm<S>, w: World<S>, run: seq<Action<S>>, n: nat)
    requires Lawful(vt) && Inv(vt, w) && Barred(w, n) && Runs(vt, w, run)
    ensures Barred(After(vt, w, run), n)
    decreases |run|
  {
    hide Inv, Next, Enabled, Lawful, Barred;
    if run != [] {
      StepBars(vt, w, run[0], n);
      StepKeeps(vt, w, run[0]);
      RunBars(vt, Next(vt, w, run[0]), run[1..], n);
    }
  }

  /** After a crash between the two records of a state, that state is never taken again, in any run: whatever instruction
    * brings it changes nothing. */
  lemma HalfJournaledIsNeverTaken<S(!new)>(vt: Vterm<S>, w: World<S>, m: HostInstruction, run: seq<Action<S>>)
    requires Lawful(vt) && Reachable(vt, w) && Enabled(vt, w, CrashAfterState(m))
    requires Runs(vt, Next(vt, w, CrashAfterState(m)), run)
    ensures var u := After(vt, Next(vt, w, CrashAfterState(m)), run);
      u.client.Some? ==> forall oldNum, diff :: ApplyDiff(vt, u.client.value, oldNum, m.newNum, diff) == u.client.value
  {
    ReachableKeeps(vt, w);
    CrashAfterStateKeeps(vt, w, m);
    var v := Next(vt, w, CrashAfterState(m));
    assert Barred(v, m.newNum);
    hide Inv, Lawful, Next, Enabled, Reachable;
    RunBars(vt, v, run, m.newNum);
  }

  // --- Which changes are taken ---

  /** Of what the server sent, a change that is news and starts from a state held is taken if and only if no state of its
    * number is held already. */
  lemma TakenExactly<S(!new)>(vt: Vterm<S>, w: World<S>, m: HostInstruction)
    requires Lawful(vt) && Reachable(vt, w) && w.client.Some? && m in w.sent
    requires m.oldNum in w.client.value.states && m.newNum > w.client.value.latest
    ensures Taken(vt, w, m).client.Some?
    ensures m.newNum !in w.client.value.states <==> Taken(vt, w, m).client.value.latest == m.newNum
    ensures m.newNum in w.client.value.states ==> Taken(vt, w, m) == w
  {
    ReachableKeeps(vt, w);
    StepsMakeScreen(vt, w.client.value.states, m.oldNum);
    hide StepsTo, NewState, NewOutput, Show, KeptLines, BaseScreen;
  }

  /** In all: what the server sent is taken if and only if it goes forward, is not held already and starts from a state
    * held. Then it is the newest and what is acknowledged, and nothing else changes of what is held. Otherwise nothing
    * changes at all. */
  lemma NewsIsTaken<S(!new)>(vt: Vterm<S>, w: World<S>, m: HostInstruction)
    requires Lawful(vt) && Reachable(vt, w) && w.client.Some? && m in w.sent
    ensures Taken(vt, w, m).client.Some?
    ensures var r, v := w.client.value, Taken(vt, w, m).client.value;
      if m.newNum > r.latest && m.newNum !in r.states && m.oldNum in r.states
      then && v.latest == m.newNum && v.ackNum == m.newNum && v.states.Keys == r.states.Keys + {m.newNum}
           && (forall n :: n in r.states ==> v.states[n] == r.states[n])
      else Taken(vt, w, m) == w
  {
    ReachableKeeps(vt, w);
    if m.oldNum in w.client.value.states {
      StepsMakeScreen(vt, w.client.value.states, m.oldNum);
    }
    hide StepsTo, NewState, NewOutput, Show, KeptLines, BaseScreen;
  }

  /** Nothing held is above the newest. */
  predicate NewestOnTop<S>(w: World<S>) {
    && (w.client.Some? ==> forall n :: n in w.client.value.states ==> n <= w.client.value.latest)
    && (w.disk.Some? ==> forall n :: n in w.disk.value.states ==> n <= w.disk.value.latest)
  }

  lemma TakenOnTop<S(!new)>(vt: Vterm<S>, w: World<S>, m: HostInstruction)
    requires Inv(vt, w) && NewestOnTop(w) && w.client.Some?
    ensures NewestOnTop(Taken(vt, w, m)) && Taken(vt, w, m).client.Some?
  {
    hide StatesOk, HostOk, HeldOk, KeptOk, StepsTo, NewOutput, Show, KeptLines, BaseScreen, DescribeScreen;
    if Accepts(w.client.value, m.oldNum, m.newNum) {
      var r := w.client.value;
      assert w.disk.Some? ==> w.disk.value == Saved(r.states, r.latest);
    }
  }

  lemma ThrownOnTop<S(!new)>(vt: Vterm<S>, w: World<S>, m: HostInstruction)
    requires Lawful(vt) && Inv(vt, w) && NewestOnTop(w) && w.client.Some? && m in w.sent
    ensures TreeOk(w.client.value.states) && NewestOnTop(Thrown(vt, w, m.throwawayNum))
  {
    var r := w.client.value;
    assert TreeOk(r.states);
    if Folds(r.states, m.throwawayNum) {
      FoldOk(vt, r.states, w.host, m.throwawayNum);
      hide Fold, Inv, Lawful, TreeOk, Crowded;
    }
  }

  lemma StepOnTop<S(!new)>(vt: Vterm<S>, w: World<S>, a: Action<S>)
    requires Lawful(vt) && Inv(vt, w) && NewestOnTop(w) && Enabled(vt, w, a) && !a.CrashAfterState?
    ensures NewestOnTop(Next(vt, w, a))
  {
    hide Taken, Thrown, Inv, Lawful, StepsTo;
    match a
    case Delivering(m) =>
      TakenOnTop(vt, w, m);
      TakenKeeps(vt, w, m);
      TakenRuns(vt, w, m);
      ThrownOnTop(vt, Taken(vt, w, m), m);
    case CrashBeforeFold(m) => TakenOnTop(vt, w, m);
    case _ =>
  }

  lemma {:induction false} RunOnTop<S(!new)>(vt: Vterm<S>, w: World<S>, run: seq<Action<S>>)
    requires Lawful(vt) && Inv(vt, w) && NewestOnTop(w) && Runs(vt, w, run)
    requires forall a :: a in run ==> !a.CrashAfterState?
    ensures NewestOnTop(After(vt, w, run)) && Inv(vt, After(vt, w, run))
    decreases |run|
  {
    hide Inv, Next, Enabled, Lawful, NewestOnTop;
    if run != [] {
      StepOnTop(vt, w, run[0]);
      StepKeeps(vt, w, run[0]);
      RunOnTop(vt, Next(vt, w, run[0]), run[1..]);
    }
  }

  /** In a run without such a crash no state above the newest is ever held, so every change that is news and starts from a
    * state held is taken. */
  lemma WithoutSuchCrashNewsIsTaken<S(!new)>(vt: Vterm<S>, run: seq<Action<S>>, m: HostInstruction)
    requires Lawful(vt) && Runs(vt, Initial(vt), run) && forall a :: a in run ==> !a.CrashAfterState?
    ensures var w := After(vt, Initial(vt), run);
      && NewestOnTop(w)
      && (w.client.Some? && m in w.sent && m.oldNum in w.client.value.states && m.newNum > w.client.value.latest ==>
            Taken(vt, w, m).client.Some? && Taken(vt, w, m).client.value.latest == m.newNum)
  {
    InitialOk(vt);
    assert NewestOnTop(Initial(vt));
    hide Inv, Lawful, Taken, Runs, After, Initial;
    RunOnTop(vt, Initial(vt), run);
    var w := After(vt, Initial(vt), run);
    assert Reachable(vt, w);
    if w.client.Some? && m in w.sent && m.oldNum in w.client.value.states && m.newNum > w.client.value.latest {
      TakenExactly(vt, w, m);
    }
  }

  // --- That it happens ---

  const LETTER := HostInstruction(0, 1, 0, HostDiff([65], None, None))

  function HalfRun(): seq<Action<Toy>> {
    [WritingJournal, Emitting(LETTER), CrashAfterState(LETTER), Resuming(Toy(80, 24, []))]
  }

  lemma RunsFirst<S(!new)>(vt: Vterm<S>, w: World<S>, a: Action<S>, more: seq<Action<S>>)
    requires Enabled(vt, w, a) && Runs(vt, Next(vt, w, a), more)
    ensures Runs(vt, w, [a] + more) && After(vt, w, [a] + more) == After(vt, Next(vt, w, a), more)
  {
    hide Enabled, Next;
    assert ([a] + more)[1..] == more;
  }

  /** The session when the letter is on its way. */
  lemma LetterIsSent() returns (w: World<Toy>)
    ensures var vt, run := ToyVterm(), HalfRun();
      && Enabled(vt, Initial(vt), run[0]) && Enabled(vt, Next(vt, Initial(vt), run[0]), run[1])
      && w == Next(vt, Next(vt, Initial(vt), run[0]), run[1])
      && w.client.Some? && w.disk.Some? && LETTER in w.sent && 1 in w.host
      && w.client.value.states == map[0 := ReceivedState(0, NO_PARENT, [], 80, 24, 0)] && w.client.value.latest == 0
      && w.disk.value == Saved(w.client.value.states, 0) && w.host[1].shown == [65]
  {
    var vt, run := ToyVterm(), HalfRun();
    w := Next(vt, Next(vt, Initial(vt), run[0]), run[1]);
    assert w.host[1] == Result(vt, Initial(vt).host[0], LETTER.diff);
  }

  /** There is a run to a restarted client that holds the server's first change without having shown it, and refuses it. */
  lemma HalfJournaledHappens()
    ensures var vt := ToyVterm();
      && Runs(vt, Initial(vt), HalfRun())
      && (var w := After(vt, Initial(vt), HalfRun());
          && w.client.Some? && LETTER in w.sent && w.client.value.latest == 0 && 1 in w.client.value.states
          && Taken(vt, w, LETTER) == w && w.terminal != w.host[1])
  {
    var vt, run := ToyVterm(), HalfRun();
    var w2 := LetterIsSent();
    var w := LetterIsHalf(w2);
    hide Enabled, Next, Initial, Taken, ToyVterm;
    var w1 := Next(vt, Initial(vt), run[0]);
    assert Runs(vt, w, []);
    RunsFirst(vt, Next(vt, w2, run[2]), run[3], []);
    RunsFirst(vt, w2, run[2], [run[3]]);
    RunsFirst(vt, w1, run[1], [run[2], run[3]]);
    RunsFirst(vt, Initial(vt), run[0], [run[1], run[2], run[3]]);
  }

  lemma LetterIsHalf(w2: World<Toy>) returns (w: World<Toy>)
    requires w2.client.Some? && w2.disk.Some? && LETTER in w2.sent && 1 in w2.host && w2.host[1].shown == [65]
    requires w2.client.value.states == map[0 := ReceivedState(0, NO_PARENT, [], 80, 24, 0)] && w2.client.value.latest == 0
    requires w2.disk.value == Saved(w2.client.value.states, 0)
    ensures var vt, run := ToyVterm(), HalfRun();
      && Enabled(vt, w2, run[2]) && Enabled(vt, Next(vt, w2, run[2]), run[3])
      && w == Next(vt, Next(vt, w2, run[2]), run[3])
      && w.client.Some? && LETTER in w.sent && w.client.value.latest == 0 && 1 in w.client.value.states
      && 1 in w.host && Taken(vt, w, LETTER) == w && w.terminal != w.host[1]
  {
    var vt, run := ToyVterm(), HalfRun();
    assert Accepts(w2.client.value, 0, 1);
    var w3 := Next(vt, w2, run[2]);
    assert w3.disk.value.states[0] == ReceivedState(0, NO_PARENT, [], 80, 24, 0);
    assert Walk(w3.disk.value.states, 0, []) == [w3.disk.value.states[0]];
    assert Enabled(vt, w3, run[3]);
    w := Next(vt, w3, run[3]);
  }
}
