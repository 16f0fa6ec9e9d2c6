/** What every run of MoshScreens keeps: mirror and terminal show the server's newest screen taken, no line
  * enters the scrollback twice, and a restart finds every state the server may still start from. */
module MoshRefinement {
  import opened MoshTypes
  import opened MoshReceiver
  import opened MoshScreens

  /** The states are a tree that draws the server's screens. */
  ghost predicate StatesOk<S(!new)>(vt: Vterm<S>, states: States, host: map<nat, S>) {
    && TreeOk(states)
    && (forall n :: n in states ==> n in host && ScreenOf(vt, states, n) == host[n])
    && (forall n :: n in states ==> states[n].columns == vt.columns(host[n]) && states[n].rows == vt.rows(host[n]))
  }

  ghost predicate HostOk<S(!new)>(vt: Vterm<S>, host: map<nat, S>, sent: set<HostInstruction>, acked: set<nat>) {
    && (forall m :: m in sent ==>
          && m.oldNum in host && m.newNum in host && host[m.newNum] == Result(vt, host[m.oldNum], m.diff)
          && m.oldNum < m.newNum && m.newNum != NO_PARENT && m.throwawayNum in acked)
    && (forall a :: a in acked ==> a in host)
  }

  ghost predicate ThrownAway(sent: set<HostInstruction>, n: nat) {
    exists m :: m in sent && m.throwawayNum > n
  }

  /** Every state acknowledged is held, unless the server said it starts from later ones only. */
  ghost predicate HeldOk(states: States, latest: nat, sent: set<HostInstruction>, acked: set<nat>) {
    && (forall a :: a in acked ==> a <= latest)
    && (forall a :: a in acked ==> a in states || ThrownAway(sent, a))
  }

  ghost predicate ClientOk<S(!new)>(vt: Vterm<S>, r: Receiver<S>, w: World<S>) {
    && StatesOk(vt, r.states, w.host) && HeldOk(r.states, r.latest, w.sent, w.acked)
    && r.latest in r.states && r.ackNum == r.latest
    && r.mirror == w.host[r.latest] && w.terminal == w.host[r.latest]
  }

  /** Lines kept come in order, none twice and none past those shown; without a restart none is missing. */
  ghost predicate KeptOk(kept: seq<nat>, base: nat, shown: nat, states: States, resumed: bool) {
    && |kept| + base <= shown
    && (forall i, j :: 0 <= i < j < |kept| ==> kept[i] < kept[j])
    && (forall i :: 0 <= i < |kept| ==> base <= kept[i] < shown)
    && (!resumed ==> kept == Range(0, shown) && forall n :: n in states ==> states[n].scrollIndex <= shown)
  }

  ghost predicate DiskOk<S(!new)>(vt: Vterm<S>, w: World<S>) {
    w.disk.Some? ==>
      && StatesOk(vt, w.disk.value.states, w.host)
      && HeldOk(w.disk.value.states, w.disk.value.latest, w.sent, w.acked)
      && w.disk.value.latest in w.disk.value.states
      && (w.client.Some? ==> w.disk.value == Saved(w.client.value.states, w.client.value.latest))
  }

  ghost predicate Inv<S(!new)>(vt: Vterm<S>, w: World<S>) {
    && HostOk(vt, w.host, w.sent, w.acked)
    && DiskOk(vt, w)
    && (w.client.Some? ==>
          && ClientOk(vt, w.client.value, w)
          && KeptOk(w.kept, w.base, w.client.value.shownScroll, w.client.value.states, w.resumed))
  }

  // --- Taking changes ---

  lemma {:induction false} ScreenFrame<S>(vt: Vterm<S>, states: States, s: ReceivedState, n: nat)
    requires TreeOk(states) && n in states && s.num !in states && TreeOk(states[s.num := s])
    ensures ScreenOf(vt, states[s.num := s], n) == ScreenOf(vt, states, n)
    decreases n
  {
    if states[n].parent != NO_PARENT {
      ScreenFrame(vt, states, s, states[n].parent);
    }
  }

  lemma AddStateOk<S(!new)>(vt: Vterm<S>, states: States, host: map<nat, S>, s: ReceivedState)
    requires Lawful(vt) && StatesOk(vt, states, host) && s.num !in states && s.num != NO_PARENT && s.num in host
    requires s.parent in states && s.parent < s.num
    requires host[s.num] == vt.write(host[s.parent], s.columns, s.rows, s.diff)
    ensures StatesOk(vt, states[s.num := s], host)
  {
    var grown := states[s.num := s];
    assert s.parent != NO_PARENT by { assert states[s.parent].num == s.parent; }
    forall n | n in states ensures ScreenOf(vt, grown, n) == host[n] {
      ScreenFrame(vt, states, s, n);
    }
    assert ScreenOf(vt, grown, s.num) == host[s.num];
  }

  /** The screen changes are written on is the server's at the number they start from. */
  lemma BaseIsHost<S(!new)>(vt: Vterm<S>, r: Receiver<S>, w: World<S>, n: nat)
    requires Lawful(vt) && ClientOk(vt, r, w) && n in r.states
    ensures BaseScreen(vt, r, n) == w.host[n]
  {
    DescriptionDraws(vt, r.states, n, vt.blank(r.states[n].columns, r.states[n].rows));
  }

  lemma AcceptedState<S(!new)>(vt: Vterm<S>, r: Receiver<S>, w: World<S>, m: HostInstruction)
    requires Lawful(vt) && ClientOk(vt, r, w) && HostOk(vt, w.host, w.sent, w.acked)
    requires m in w.sent && Accepts(r, m.oldNum, m.newNum)
    ensures var s := NewState(vt, r, m.oldNum, m.newNum, m.diff);
      && StatesOk(vt, r.states[m.newNum := s], w.host)
      && w.host[m.newNum] == vt.write(w.host[m.oldNum], s.columns, s.rows, m.diff.bytes)
      && s.scrollIndex == r.states[m.oldNum].scrollIndex
                          + vt.scrolled(w.host[m.oldNum], s.columns, s.rows, m.diff.bytes)
  {
    hide StepsTo;
    BaseIsHost(vt, r, w, m.oldNum);
    AddStateOk(vt, r.states, w.host, NewState(vt, r, m.oldNum, m.newNum, m.diff));
  }

  lemma TerminalFollows<S(!new)>(vt: Vterm<S>, r: Receiver<S>, w: World<S>, m: HostInstruction)
    requires Lawful(vt) && ClientOk(vt, r, w) && m.oldNum in r.states
    ensures Brought(vt, w.terminal, NewOutput(vt, r, m.oldNum, m.diff), r.states[m.oldNum]) == w.host[m.oldNum]
  {
    DescriptionDraws(vt, r.states, m.oldNum, w.terminal);
  }

  lemma KeptGrows(kept: seq<nat>, base: nat, shown: nat, states: States, resumed: bool, start: nat, s: ReceivedState)
    requires KeptOk(kept, base, shown, states, resumed) && start in states && s.scrollIndex >= states[start].scrollIndex
    ensures KeptOk(kept + Range(states[start].scrollIndex + Max(0, shown - states[start].scrollIndex), s.scrollIndex), base,
                   Max(shown, s.scrollIndex), states[s.num := s], resumed)
  {
    var from := states[start].scrollIndex + Max(0, shown - states[start].scrollIndex);
    var more := Range(from, s.scrollIndex);
    assert forall i :: 0 <= i < |more| ==> more[i] == from + i;
    var all := kept + more;
    assert forall i :: 0 <= i < |all| ==> all[i] == if i < |kept| then kept[i] else from + (i - |kept|);
    if !resumed {
      assert all == Range(0, Max(shown, s.scrollIndex));
    }
  }

  lemma TakenShows<S(!new)>(vt: Vterm<S>, w: World<S>, m: HostInstruction)
    requires Lawful(vt) && Inv(vt, w) && w.client.Some? && m in w.sent && Accepts(w.client.value, m.oldNum, m.newNum)
    ensures var v := Taken(vt, w, m); v.client.Some? && ClientOk(vt, v.client.value, v)
  {
    var r := w.client.value;
    AcceptedState(vt, r, w, m);
    BaseIsHost(vt, r, w, m.oldNum);
    TerminalFollows(vt, r, w, m);
    hide StepsTo, BaseScreen, DescribeScreen, KeptOk, HostOk, StatesOk, Accepts, Brought, NewOutput, NewState, KeptLines;
  }

  lemma TakenParts<S(!new)>(vt: Vterm<S>, w: World<S>, m: HostInstruction)
    requires w.client.Some? && Accepts(w.client.value, m.oldNum, m.newNum)
    ensures var r, v := w.client.value, Taken(vt, w, m);
      var s, o := NewState(vt, r, m.oldNum, m.newNum, m.diff), NewOutput(vt, r, m.oldNum, m.diff);
      && v.client.Some? && v.base == w.base && v.resumed == w.resumed
      && v.kept == w.kept + KeptLines(vt, w.terminal, o, r.states[m.oldNum], s)
      && v.client.value.shownScroll == Max(r.shownScroll, s.scrollIndex)
      && v.client.value.states == r.states[m.newNum := s]
  {
    hide NewState, NewOutput, KeptLines, Show;
  }

  lemma TakenKept<S(!new)>(vt: Vterm<S>, w: World<S>, m: HostInstruction)
    requires Lawful(vt) && Inv(vt, w) && w.client.Some? && m in w.sent && Accepts(w.client.value, m.oldNum, m.newNum)
    ensures var v := Taken(vt, w, m);
      v.client.Some? && KeptOk(v.kept, v.base, v.client.value.shownScroll, v.client.value.states, v.resumed)
  {
    hide StepsTo, BaseScreen, DescribeScreen, KeptOk, HostOk, StatesOk, Accepts, Brought, ClientOk, DiskOk, Taken, Range,
         Lawful;
    var r := w.client.value;
    BasesHeld(vt, w, m);
    AcceptedState(vt, r, w, m);
    TerminalFollows(vt, r, w, m);
    var s := NewState(vt, r, m.oldNum, m.newNum, m.diff);
    KeptGrows(w.kept, w.base, r.shownScroll, r.states, w.resumed, m.oldNum, s);
    TakenParts(vt, w, m);
  }

  lemma BasesHeld<S(!new)>(vt: Vterm<S>, w: World<S>, m: HostInstruction)
    requires Inv(vt, w) && w.client.Some? && Accepts(w.client.value, m.oldNum, m.newNum)
    ensures m.oldNum in w.client.value.states && m.oldNum in w.host
  {
    hide KeptOk, HostOk, DiskOk, StepsTo;
  }

  lemma TakenKeeps<S(!new)>(vt: Vterm<S>, w: World<S>, m: HostInstruction)
    requires Lawful(vt) && Inv(vt, w) && w.client.Some? && m in w.sent
    ensures Inv(vt, Taken(vt, w, m))
  {
    if Accepts(w.client.value, m.oldNum, m.newNum) {
      TakenShows(vt, w, m);
      TakenKept(vt, w, m);
      hide StepsTo, BaseScreen, DescribeScreen, KeptOk, HostOk, StatesOk, HeldOk, Accepts, Show, NewOutput, NewState, KeptLines;
    }
  }

  lemma FoldOk<S(!new)>(vt: Vterm<S>, states: States, host: map<nat, S>, num: nat)
    requires Lawful(vt) && StatesOk(vt, states, host)
    ensures StatesOk(vt, Fold(vt, states, num), host)
    ensures forall n :: n in Fold(vt, states, num) <==> n in states && n >= num
    ensures forall n :: n in Fold(vt, states, num) ==> Fold(vt, states, num)[n].scrollIndex == states[n].scrollIndex
  {
    FoldStays(vt, states, num);
    forall n | n in Fold(vt, states, num)
      ensures n in states && ScreenOf(vt, Fold(vt, states, num), n) == ScreenOf(vt, states, n)
      ensures Fold(vt, states, num)[n].columns == states[n].columns && Fold(vt, states, num)[n].rows == states[n].rows
      ensures Fold(vt, states, num)[n].scrollIndex == states[n].scrollIndex
    {
      FoldKeepsScreen(vt, states, num, n);
    }
    hide Fold;
  }

  /** The states left: those from num on, with their lines. */
  ghost predicate LeftFrom(left: States, states: States, num: nat) {
    && (forall n :: n in left <==> n in states && n >= num)
    && (forall n :: n in left ==> left[n].scrollIndex == states[n].scrollIndex)
  }

  lemma LeftHeld(left: States, states: States, latest: nat, sent: set<HostInstruction>, acked: set<nat>, m: HostInstruction)
    requires HeldOk(states, latest, sent, acked) && m in sent && LeftFrom(left, states, m.throwawayNum)
    ensures HeldOk(left, latest, sent, acked)
  {
    forall a | a in acked ensures a in left || ThrownAway(sent, a) {
      if a < m.throwawayNum {
        assert ThrownAway(sent, a);
      }
    }
  }

  lemma LeftKept(left: States, states: States, num: nat, kept: seq<nat>, base: nat, shown: nat, resumed: bool)
    requires KeptOk(kept, base, shown, states, resumed) && LeftFrom(left, states, num)
    ensures KeptOk(kept, base, shown, left, resumed)
  {
  }

  lemma ThrownKeeps<S(!new)>(vt: Vterm<S>, w: World<S>, m: HostInstruction)
    requires Lawful(vt) && Inv(vt, w) && w.client.Some? && m in w.sent
    ensures TreeOk(w.client.value.states) && Inv(vt, Thrown(vt, w, m.throwawayNum))
  {
    var r := w.client.value;
    assert TreeOk(r.states);
    hide Crowded, HeldOk, KeptOk, Fold, LeftFrom;
    if Folds(r.states, m.throwawayNum) {
      FoldOk(vt, r.states, w.host, m.throwawayNum);
      hide StatesOk, Lawful;
      var left := Fold(vt, r.states, m.throwawayNum);
      FrontLeft(vt, w, m);
      assert LeftFrom(left, r.states, m.throwawayNum) by { LeftIs(left, r.states, m.throwawayNum); }
      LeftHeld(left, r.states, r.latest, w.sent, w.acked, m);
      LeftKept(left, r.states, m.throwawayNum, w.kept, w.base, r.shownScroll, w.resumed);
    }
  }

  lemma LeftIs(left: States, states: States, num: nat)
    requires forall n :: n in left <==> n in states && n >= num
    requires forall n :: n in left ==> left[n].scrollIndex == states[n].scrollIndex
    ensures LeftFrom(left, states, num)
  {
  }

  lemma FrontLeft<S(!new)>(vt: Vterm<S>, w: World<S>, m: HostInstruction)
    requires Inv(vt, w) && w.client.Some? && m in w.sent
    ensures m.throwawayNum <= w.client.value.latest
  {
    hide StatesOk, KeptOk, DiskOk;
    assert m.throwawayNum in w.acked;
  }

  lemma DeliveringKeeps<S(!new)>(vt: Vterm<S>, w: World<S>, m: HostInstruction)
    requires Lawful(vt) && Inv(vt, w) && Enabled(vt, w, Delivering(m))
    ensures Inv(vt, Next(vt, w, Delivering(m)))
  {
    hide Inv, Taken, Thrown;
    TakenKeeps(vt, w, m);
    var v := Taken(vt, w, m);
    assert v.client.Some? && v.sent == w.sent by { TakenRuns(vt, w, m); }
    ThrownKeeps(vt, v, m);
  }

  lemma TakenRuns<S(!new)>(vt: Vterm<S>, w: World<S>, m: HostInstruction)
    requires w.client.Some?
    ensures Taken(vt, w, m).client.Some? && Taken(vt, w, m).sent == w.sent
  {
  }

  lemma EmittingKeeps<S(!new)>(vt: Vterm<S>, w: World<S>, m: HostInstruction)
    requires Lawful(vt) && Inv(vt, w) && Enabled(vt, w, Emitting(m))
    ensures Inv(vt, Next(vt, w, Emitting(m)))
  {
    var v := Next(vt, w, Emitting(m));
    assert forall n :: n in w.host ==> n in v.host && v.host[n] == w.host[n];
    hide Result, KeptOk, Enabled;
    assert forall a :: ThrownAway(w.sent, a) ==> ThrownAway(v.sent, a);
  }

  lemma CrashAfterStateKeeps<S(!new)>(vt: Vterm<S>, w: World<S>, m: HostInstruction)
    requires Lawful(vt) && Inv(vt, w) && Enabled(vt, w, CrashAfterState(m))
    ensures Inv(vt, Next(vt, w, CrashAfterState(m)))
  {
    AcceptedState(vt, w.client.value, w, m);
    hide StepsTo, BaseScreen, DescribeScreen, KeptOk, HostOk, StatesOk, Accepts, NewState;
  }

  lemma ResumingKeeps<S(!new)>(vt: Vterm<S>, w: World<S>, terminal: S)
    requires Lawful(vt) && Inv(vt, w) && Enabled(vt, w, Resuming(terminal))
    ensures Inv(vt, Next(vt, w, Resuming(terminal)))
  {
    var saved := w.disk.value;
    var latest := saved.states[saved.latest];
    DescriptionDraws(vt, saved.states, saved.latest, terminal);
    DescriptionDraws(vt, saved.states, saved.latest, vt.blank(latest.columns, latest.rows));
    hide StepsTo, DescribeScreen, HostOk;
  }

  lemma StepKeeps<S(!new)>(vt: Vterm<S>, w: World<S>, a: Action<S>)
    requires Lawful(vt) && Inv(vt, w) && Enabled(vt, w, a)
    ensures Inv(vt, Next(vt, w, a))
  {
    match a
    case Emitting(m) => EmittingKeeps(vt, w, m);
    case Delivering(m) => DeliveringKeeps(vt, w, m);
    case CrashAfterState(m) => CrashAfterStateKeeps(vt, w, m);
    case CrashBeforeFold(m) => TakenKeeps(vt, w, m); hide Taken, StatesOk, HeldOk, HostOk, KeptOk;
    case WritingJournal => hide StatesOk, HeldOk, HostOk, KeptOk;
    case Acknowledging => hide StatesOk, KeptOk;
    case Crash => hide StatesOk, HeldOk, HostOk, KeptOk;
    case Resuming(terminal) => ResumingKeeps(vt, w, terminal);
  }

  lemma InitialOk<S(!new)>(vt: Vterm<S>)
    requires Lawful(vt)
    ensures Inv(vt, Initial(vt))
  {
  }

  lemma {:induction false} RunKeeps<S(!new)>(vt: Vterm<S>, w: World<S>, run: seq<Action<S>>)
    requires Lawful(vt) && Inv(vt, w) && Runs(vt, w, run)
    ensures Inv(vt, After(vt, w, run))
    decreases |run|
  {
    hide Inv, Next, Enabled, Lawful;
    if run != [] {
      StepKeeps(vt, w, run[0]);
      RunKeeps(vt, Next(vt, w, run[0]), run[1..]);
    }
  }

  // --- What it comes to ---

  ghost predicate Reachable<S(!new)>(vt: Vterm<S>, w: World<S>) {
    exists run: seq<Action<S>> :: Runs(vt, Initial(vt), run) && w == After(vt, Initial(vt), run)
  }

  lemma ReachableKeeps<S(!new)>(vt: Vterm<S>, w: World<S>)
    requires Lawful(vt) && Reachable(vt, w)
    ensures Inv(vt, w)
  {
    hide Inv, Runs, After;
    var run: seq<Action<S>> :| Runs(vt, Initial(vt), run) && w == After(vt, Initial(vt), run);
    InitialOk(vt);
    RunKeeps(vt, Initial(vt), run);
  }

  /** In any run the mirror, the replay of the steps to the newest state and the terminal show the server's
    * screen of that number, and every state held draws the server's screen of its own. */
  lemma TerminalShowsServerScreen<S(!new)>(vt: Vterm<S>, w: World<S>)
    requires Lawful(vt) && Reachable(vt, w) && w.client.Some?
    ensures var r := w.client.value;
      && r.latest in r.states && r.latest in w.host && r.ackNum == r.latest
      && r.mirror == w.host[r.latest] && w.terminal == w.host[r.latest]
      && (forall n :: n in r.states ==>
            n in w.host && StepsTo(r.states, n) != [] && Replay(vt, StepsTo(r.states, n)) == w.host[n])
  {
    ReachableKeeps(vt, w);
    var r := w.client.value;
    forall n | n in r.states
      ensures n in w.host && StepsTo(r.states, n) != [] && Replay(vt, StepsTo(r.states, n)) == w.host[n]
    {
      StepsMakeScreen(vt, r.states, n);
    }
  }

  /** A change that is taken makes state, mirror and terminal as wide and as high as it asks for, from 1 to 4096, and keeps
    * the size of the screen it starts from where it asks for none. */
  lemma ResizesAreFollowed<S(!new)>(vt: Vterm<S>, w: World<S>, m: HostInstruction)
    requires Lawful(vt) && Reachable(vt, w) && w.client.Some? && m in w.sent
    requires Accepts(w.client.value, m.oldNum, m.newNum)
    ensures var base, v := w.client.value.states[m.oldNum], Taken(vt, w, m);
      v.client.Some? && m.newNum in v.client.value.states &&
      (var state, mirror := v.client.value.states[m.newNum], v.client.value.mirror;
       && state.columns == vt.columns(mirror) == vt.columns(v.terminal)
       && state.rows == vt.rows(mirror) == vt.rows(v.terminal)
       && (m.diff.columns.None? ==> state.columns == base.columns)
       && (m.diff.rows.None? ==> state.rows == base.rows)
       && (m.diff.columns.Some? ==>
             var c := m.diff.columns.value;
             (1 <= c <= 4096 ==> state.columns == c) && (c < 1 ==> state.columns == 1) && (c > 4096 ==> state.columns == 4096))
       && (m.diff.rows.Some? ==>
             var c := m.diff.rows.value;
             (1 <= c <= 4096 ==> state.rows == c) && (c < 1 ==> state.rows == 1) && (c > 4096 ==> state.rows == 4096)))
  {
    ReachableKeeps(vt, w);
    hide StepsTo, BaseScreen, DescribeScreen, Inv, Brought, NewOutput, KeptLines, Accepts;
  }

  /** The terminal is only put back into an older screen when the change does not start from the one it shows, and is then
    * given that screen as it was; the bytes of the change follow either way. */
  lemma OnlyOlderBasesReplace<S(!new)>(vt: Vterm<S>, w: World<S>, m: HostInstruction)
    requires Lawful(vt) && Reachable(vt, w) && w.client.Some? && m in w.sent
    requires Accepts(w.client.value, m.oldNum, m.newNum)
    ensures var r, v := w.client.value, Taken(vt, w, m);
      v.client.Some? && |v.client.value.output| == |r.output| + 1 && r.output <= v.client.value.output &&
      (var o := Last(v.client.value.output);
       && o.bytes == m.diff.bytes
       && (o.replace <==> m.oldNum != r.latest)
       && (o.replace ==> m.oldNum in w.host && o.screen == vt.describe(w.host[m.oldNum])))
  {
    ReachableKeeps(vt, w);
    if m.oldNum != w.client.value.latest {
      StepsMakeScreen(vt, w.client.value.states, m.oldNum);
    }
    hide StepsTo, BaseScreen, Brought, KeptLines;
  }

  /** A client that comes back shows its newest screen on whatever terminal it is given, and counts lines from that screen
    * on. */
  lemma ComesBackToNewest<S(!new)>(vt: Vterm<S>, w: World<S>, terminal: S)
    requires Lawful(vt) && Reachable(vt, w) && Enabled(vt, w, Resuming(terminal))
    ensures var saved, v := w.disk.value, Next(vt, w, Resuming(terminal));
      && v.client.Some? && v.client.value.latest == saved.latest && v.client.value.states == saved.states
      && saved.latest in w.host && v.terminal == w.host[saved.latest]
      && v.client.value.output == [Output([], true, vt.describe(w.host[saved.latest]), 0)]
      && v.client.value.shownScroll == v.base == saved.states[saved.latest].scrollIndex && v.kept == []
  {
    ReachableKeeps(vt, w);
    ResumingKeeps(vt, w, terminal);
    StepsMakeScreen(vt, w.disk.value.states, w.disk.value.latest);
    hide StepsTo, Brought;
  }

  /** The scrollback holds every line scrolled off up to the newest shown, once each and in order; after a
    * restart at most that many more than before it, still each once and in order. */
  lemma ScrollbackHasEachLineOnce<S(!new)>(vt: Vterm<S>, w: World<S>)
    requires Lawful(vt) && Reachable(vt, w) && w.client.Some?
    ensures var shown := w.client.value.shownScroll;
      && (!w.resumed ==> w.kept == Range(0, shown) && |w.kept| == shown)
      && |w.kept| + w.base <= shown
      && (forall i, j :: 0 <= i < j < |w.kept| ==> w.kept[i] < w.kept[j])
      && (forall i :: 0 <= i < |w.kept| ==> w.base <= w.kept[i] < shown)
  {
    ReachableKeeps(vt, w);
  }

  /** Whatever crash came before, a state acknowledged is held, now and after a restart, unless an
    * instruction said the server starts from later ones; and the newest state journaled can be drawn. */
  lemma AcknowledgedIsHeld<S(!new)>(vt: Vterm<S>, w: World<S>, a: nat)
    requires Lawful(vt) && Reachable(vt, w) && a in w.acked
    requires forall m :: m in w.sent ==> m.throwawayNum <= a
    ensures w.client.Some? ==> a in w.client.value.states
    ensures w.disk.Some? ==> a in w.disk.value.states && Enabled(vt, w.(client := None), Resuming(w.terminal))
    ensures w.disk.Some? ==>
      (w.disk.value.latest in w.host
       && Replay(vt, StepsTo(w.disk.value.states, w.disk.value.latest)) == w.host[w.disk.value.latest])
  {
    ReachableKeeps(vt, w);
    if w.disk.Some? {
      StepsMakeScreen(vt, w.disk.value.states, w.disk.value.latest);
    }
  }

  // --- The laws can be met ---

  datatype Toy = Toy(columns: nat, rows: nat, shown: Bytes)

  function ToyWrite(s: Toy, columns: nat, rows: nat, bytes: Bytes): Toy {
    Toy(columns, rows, if bytes != [] && bytes[0] == 27 then bytes[1..] else s.shown + bytes)
  }

  /** A terminal that shows what was written since it was last cleared. */
  function ToyVterm(): Vterm<Toy> {
    Vterm((c, r) => Toy(c, r, []), ToyWrite, (s, c, r, b) => |b|, (s: Toy) => [27] + s.shown,
          (s: Toy) => s.columns, (s: Toy) => s.rows)
  }

  lemma LawsCanBeMet()
    ensures Lawful(ToyVterm())
  {
    forall s: Toy, t: Toy ensures ToyWrite(t, s.columns, s.rows, [27] + s.shown) == s {
      assert ([27] + s.shown)[1..] == s.shown;
    }
  }
}
