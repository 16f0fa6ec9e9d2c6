/** Whole runs of the receiving side: a mosh-server that shows a screen per number and sends changes between
  * them, instructions that arrive in any order, more than once or never, crashes and restarts. */
module MoshScreens {
  import opened MoshTypes
  import opened MoshReceiver
  import T = Terminal

  datatype HostInstruction = HostInstruction(oldNum: nat, newNum: nat, throwawayNum: nat, diff: HostDiff)

  /** What reading the journal gives the receiver. */
  datatype Saved = Saved(states: States, latest: nat)

  /** host is the server's screen at each number, sent its instructions, acked every number acknowledged to
    * it. kept are the scroll indices of the lines the terminal took into its scrollback since the client
    * was started or resumed, when shownScroll was base. */
  datatype World<!S> = World(
    client: Option<Receiver<S>>, disk: Option<Saved>, host: map<nat, S>, sent: set<HostInstruction>, acked: set<nat>,
    terminal: S, kept: seq<nat>, base: nat, resumed: bool)

  /** CrashAfterState is a crash between the two records of a new state. A resumed client gets a terminal
    * that may show anything. */
  datatype Action<S> =
    | Emitting(m: HostInstruction)
    | Delivering(m: HostInstruction)
    | CrashAfterState(m: HostInstruction)
    | CrashBeforeFold(m: HostInstruction)
    | WritingJournal
    | Acknowledging
    | Crash
    | Resuming(terminal: S)

  /** The size of the server's screen after a change that may ask for another: between 1 and 4096, the same as before if
    * it does not. */
  function Asked(given: Option<nat>, before: nat): nat {
    match given
    case None => before
    case Some(n) => if n == 0 then 1 else if n <= 4096 then n else 4096
  }

  /** What the server's screen becomes, by the change and by nothing of the client's. */
  function Result<S>(vt: Vterm<S>, s: S, diff: HostDiff): S {
    vt.write(s, Asked(diff.columns, vt.columns(s)), Asked(diff.rows, vt.rows(s)), diff.bytes)
  }

  predicate Enabled<S(==)>(vt: Vterm<S>, w: World<S>, a: Action<S>) {
    match a
    case Emitting(m) =>
      && m.oldNum in w.host && m.oldNum < m.newNum && m.newNum != NO_PARENT && m.throwawayNum in w.acked
      && (m.newNum in w.host ==> w.host[m.newNum] == Result(vt, w.host[m.oldNum], m.diff))
    case Delivering(m) => w.client.Some? && m in w.sent && TreeOk(w.client.value.states)
    case CrashAfterState(m) =>
      w.client.Some? && w.disk.Some? && m in w.sent && Accepts(w.client.value, m.oldNum, m.newNum)
    case CrashBeforeFold(m) =>
      w.client.Some? && w.disk.Some? && m in w.sent && Accepts(w.client.value, m.oldNum, m.newNum)
    case WritingJournal => w.client.Some?
    case Acknowledging => w.client.Some?
    case Crash => w.client.Some?
    case Resuming(_) => w.client.None? && w.disk.Some? && w.disk.value.latest in w.disk.value.states
                        && StepsTo(w.disk.value.states, w.disk.value.latest) != []
  }

  /** The terminal at the given size, as its bytes go in. */
  function Show<S>(vt: Vterm<S>, terminal: S, o: Output, base: ReceivedState, state: ReceivedState): S {
    vt.write(Brought(vt, terminal, o, base), state.columns, state.rows, o.bytes)
  }

  function Brought<S>(vt: Vterm<S>, terminal: S, o: Output, base: ReceivedState): S {
    if o.replace then vt.write(terminal, base.columns, base.rows, o.screen) else terminal
  }

  function Range(from: nat, to: nat): seq<nat> {
    if from < to then seq(to - from, i requires 0 <= i < to - from => from + i) else []
  }

  /** Of the lines that scroll off, all but the first skipLines are kept. */
  function KeptLines<S>(vt: Vterm<S>, terminal: S, o: Output, base: ReceivedState, state: ReceivedState): seq<nat> {
    Range(base.scrollIndex + o.skipLines,
          base.scrollIndex + vt.scrolled(Brought(vt, terminal, o, base), state.columns, state.rows, o.bytes))
  }

  /** Those are the lines a terminal keeps that is told to skip so many: of the lines a write pushes, the same ones in
    * the same order. */
  lemma TerminalKeepsThem<S, L>(vt: Vterm<S>, terminal: S, o: Output, base: ReceivedState, state: ReceivedState,
                                pushed: seq<L>)
    requires |pushed| == vt.scrolled(Brought(vt, terminal, o, base), state.columns, state.rows, o.bytes)
    ensures var kept, lines := KeptLines(vt, terminal, o, base, state), T.Kept(pushed, true, o.skipLines);
      && |lines| == |kept|
      && forall i :: 0 <= i < |kept| ==> base.scrollIndex <= kept[i] < base.scrollIndex + |pushed|
                                         && lines[i] == pushed[kept[i] - base.scrollIndex]
  {
  }

  function Taken<S>(vt: Vterm<S>, w: World<S>, m: HostInstruction): World<S>
    requires w.client.Some?
  {
    var r := w.client.value;
    if !Accepts(r, m.oldNum, m.newNum) then w
    else
      var state, o := NewState(vt, r, m.oldNum, m.newNum, m.diff), NewOutput(vt, r, m.oldNum, m.diff);
      w.(client := Some(ApplyDiff(vt, r, m.oldNum, m.newNum, m.diff)),
         disk := if w.disk.Some? then Some(Saved(w.disk.value.states[m.newNum := state], m.newNum)) else None,
         terminal := Show(vt, w.terminal, o, r.states[m.oldNum], state),
         kept := w.kept + KeptLines(vt, w.terminal, o, r.states[m.oldNum], state))
  }

  ghost function Thrown<S>(vt: Vterm<S>, w: World<S>, num: nat): World<S>
    requires w.client.Some? && TreeOk(w.client.value.states)
  {
    if !Folds(w.client.value.states, num) then w
    else
      var r := ThrowAwayUntil(vt, w.client.value, num);
      w.(client := Some(r), disk := if w.disk.Some? then Some(Saved(r.states, r.latest)) else None)
  }

  ghost function Next<S>(vt: Vterm<S>, w: World<S>, a: Action<S>): World<S>
    requires Enabled(vt, w, a)
  {
    match a
    case Emitting(m) => w.(host := w.host[m.newNum := Result(vt, w.host[m.oldNum], m.diff)], sent := w.sent + {m})
    case Delivering(m) =>
      var v := Taken(vt, w, m);
      if TreeOk(v.client.value.states) then Thrown(vt, v, m.throwawayNum) else v
    case CrashAfterState(m) =>
      var state := NewState(vt, w.client.value, m.oldNum, m.newNum, m.diff);
      w.(client := None, disk := Some(w.disk.value.(states := w.disk.value.states[m.newNum := state])))
    case CrashBeforeFold(m) => Taken(vt, w, m).(client := None)
    case WritingJournal => w.(disk := Some(Saved(w.client.value.states, w.client.value.latest)))
    case Acknowledging => w.(acked := w.acked + {w.client.value.ackNum})
    case Crash => w.(client := None)
    case Resuming(terminal) =>
      var r := Resumed(vt, w.disk.value.states, w.disk.value.latest);
      var latest := r.states[r.latest];
      w.(client := Some(r), terminal := Brought(vt, terminal, r.output[0], latest), kept := [], base := r.shownScroll,
         resumed := true)
  }

  function Initial<S>(vt: Vterm<S>): World<S> {
    World(Some(Start(vt)), None, map[0 := Draw(vt, [], 80, 24)], {}, {0}, Draw(vt, [], 80, 24), [], 0, false)
  }

  ghost predicate Runs<S>(vt: Vterm<S>, w: World<S>, run: seq<Action<S>>)
    decreases |run|
  {
    run != [] ==> Enabled(vt, w, run[0]) && Runs(vt, Next(vt, w, run[0]), run[1..])
  }

  ghost function After<S>(vt: Vterm<S>, w: World<S>, run: seq<Action<S>>): World<S>
    requires Runs(vt, w, run)
    decreases |run|
  {
    if run == [] then w else After(vt, Next(vt, w, run[0]), run[1..])
  }

  // --- The way to a state makes its screen ---

  ghost function ScreenOf<S>(vt: Vterm<S>, states: States, n: nat): S
    requires TreeOk(states) && n in states
    decreases n
  {
    var s := states[n];
    if s.parent == NO_PARENT then Draw(vt, s.diff, s.columns, s.rows)
    else vt.write(ScreenOf(vt, states, s.parent), s.columns, s.rows, s.diff)
  }

  ghost function PathTo(states: States, n: nat): seq<ReceivedState>
    requires TreeOk(states) && n in states
    decreases n
  {
    if states[n].parent == NO_PARENT then [states[n]] else PathTo(states, states[n].parent) + [states[n]]
  }

  ghost function Above(states: States, n: nat): set<nat> { set m | m in states && m > n }

  lemma AboveBound(states: States, n: nat)
    requires n in states
    ensures |Above(states, n)| < |states|
  {
    SubsetSize(Above(states, n), states.Keys - {n});
  }

  lemma {:induction false} SubsetSize(a: set<nat>, b: set<nat>)
    requires a <= b
    ensures |a| <= |b|
  {
    if a != {} {
      var x :| x in a;
      SubsetSize(a - {x}, b - {x});
    }
  }

  /** The guard against going round in circles never stops the walk, and no state on the way is missing. */
  lemma {:induction false} WalkIsPath(states: States, at: nat, steps: seq<ReceivedState>)
    requires TreeOk(states) && at in states && |steps| <= |Above(states, at)|
    ensures Walk(states, at, steps) == PathTo(states, at) + steps
    decreases at
  {
    AboveBound(states, at);
    var p := states[at].parent;
    if p != NO_PARENT {
      SubsetSize(Above(states, at) + {at}, Above(states, p));
      WalkIsPath(states, p, [states[at]] + steps);
      assert PathTo(states, p) + ([states[at]] + steps) == (PathTo(states, p) + [states[at]]) + steps;
    }
  }

  lemma {:induction false} ReplayPath<S>(vt: Vterm<S>, states: States, n: nat)
    requires TreeOk(states) && n in states
    ensures PathTo(states, n) != [] && Replay(vt, PathTo(states, n)) == ScreenOf(vt, states, n)
    decreases n
  {
    if states[n].parent != NO_PARENT {
      var path := PathTo(states, states[n].parent);
      ReplayPath(vt, states, states[n].parent);
      assert (path + [states[n]])[..|path|] == path;
    }
  }

  /** Every state held can be drawn from its steps. */
  lemma StepsMakeScreen<S>(vt: Vterm<S>, states: States, n: nat)
    requires TreeOk(states) && n in states
    ensures StepsTo(states, n) != [] && Replay(vt, StepsTo(states, n)) == ScreenOf(vt, states, n)
  {
    WalkIsPath(states, n, []);
    ReplayPath(vt, states, n);
    assert PathTo(states, n) + [] == PathTo(states, n);
  }

  lemma DescriptionDraws<S(!new)>(vt: Vterm<S>, states: States, n: nat, t: S)
    requires Lawful(vt) && TreeOk(states) && n in states
    ensures vt.columns(ScreenOf(vt, states, n)) == states[n].columns && vt.rows(ScreenOf(vt, states, n)) == states[n].rows
    ensures vt.write(t, states[n].columns, states[n].rows, DescribeScreen(vt, StepsTo(states, n))) == ScreenOf(vt, states, n)
  {
    StepsMakeScreen(vt, states, n);
  }

  // --- Folding ---

  lemma FoldStays<S(!new)>(vt: Vterm<S>, states: States, num: nat)
    requires TreeOk(states)
    ensures TreeOk(Fold(vt, states, num))
    ensures forall n :: n in Fold(vt, states, num) <==> n in states && n >= num
  {
    forall n | n in states ensures StepsTo(states, n) != [] {
      StepsMakeScreen(vt, states, n);
    }
    var fold := Fold(vt, states, num);
    assert forall n :: n in fold ==> fold[n] == Folded(vt, states, num, n);
  }

  /** Folding leaves the screen of every state kept as it was. */
  lemma {:induction false} FoldKeepsScreen<S(!new)>(vt: Vterm<S>, states: States, num: nat, n: nat)
    requires Lawful(vt) && TreeOk(states) && TreeOk(Fold(vt, states, num)) && n in Fold(vt, states, num)
    ensures n in states && ScreenOf(vt, Fold(vt, states, num), n) == ScreenOf(vt, states, n)
    ensures Fold(vt, states, num)[n].columns == states[n].columns && Fold(vt, states, num)[n].rows == states[n].rows
    ensures Fold(vt, states, num)[n].scrollIndex == states[n].scrollIndex
    decreases n
  {
    var fold := Fold(vt, states, num);
    assert fold[n] == Folded(vt, states, num, n);
    if BecomesRoot(states, num, n) {
      DescriptionDraws(vt, states, n, vt.blank(states[n].columns, states[n].rows));
    } else if states[n].parent != NO_PARENT {
      FoldKeepsScreen(vt, states, num, states[n].parent);
    }
  }

  ghost predicate OnPath(states: States, num: nat, n: nat)
    requires TreeOk(states) && n in states
    decreases n
  {
    n == num || (states[n].parent != NO_PARENT && OnPath(states, num, states[n].parent))
  }

  ghost function Root(states: States, n: nat): nat
    requires TreeOk(states) && n in states
    decreases n
  {
    if states[n].parent == NO_PARENT then n else Root(states, states[n].parent)
  }

  lemma {:induction false} ThroughExactly(states: States, num: nat, n: nat)
    requires TreeOk(states) && n in states
    ensures Root(states, n) <= n && (OnPath(states, num, n) ==> num <= n)
    ensures Through(states, num, n) <==> Root(states, n) >= num || OnPath(states, num, n)
    decreases n
  {
    if states[n].parent != NO_PARENT {
      ThroughExactly(states, num, states[n].parent);
    }
  }

  /** A state kept stays as it is when its way up ends in a state kept or goes through the one the server starts from.
    * That one, and those whose way is cut, become whole screens. */
  lemma FoldExactly<S>(vt: Vterm<S>, states: States, num: nat, n: nat)
    requires TreeOk(states) && n in Fold(vt, states, num)
    ensures n in states && n >= num
    ensures n != num && (Root(states, n) >= num || OnPath(states, num, n)) ==> Fold(vt, states, num)[n] == states[n]
    ensures n == num || (Root(states, n) < num && !OnPath(states, num, n)) ==>
      Fold(vt, states, num)[n] == states[n].(diff := DescribeScreen(vt, StepsTo(states, n)), parent := NO_PARENT)
  {
    hide StepsTo;
    ThroughExactly(states, num, n);
    if states[n].parent != NO_PARENT {
      ThroughExactly(states, num, states[n].parent);
    }
  }
}
