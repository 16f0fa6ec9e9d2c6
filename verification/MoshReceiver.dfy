/** The receiving side of the mosh client: the tree of screen states, the mirror of the newest one and
  * what the terminal is to be given. libvterm is a terminal of which only a few laws are known. */
module MoshReceiver {
  import opened MoshTypes

  const MAX_RECEIVED_STATES: nat := 64
  const MAX_RECEIVED_BYTES: nat := 256 * 1024

  /** blank is a cleared screen, write what bytes make of a screen brought to the given size, scrolled
    * how many lines they scroll off, and describe the bytes that draw a screen. */
  datatype Vterm<!S> = Vterm(
    blank: (nat, nat) -> S,
    write: (S, nat, nat, Bytes) -> S,
    scrolled: (S, nat, nat, Bytes) -> nat,
    describe: S -> Bytes,
    columns: S -> nat,
    rows: S -> nat)

  /** Writing a description draws the screen, whatever a screen of that size showed before. */
  ghost predicate Lawful<S(!new)>(vt: Vterm<S>) {
    && (forall s, t :: vt.write(t, vt.columns(s), vt.rows(s), vt.describe(s)) == s)
    && (forall s, c, r, b :: vt.columns(vt.write(s, c, r, b)) == c && vt.rows(vt.write(s, c, r, b)) == r)
  }

  type States = map<nat, ReceivedState>

  /** A whole screen drawn from a cleared one. */
  function Draw<S>(vt: Vterm<S>, bytes: Bytes, columns: nat, rows: nat): S {
    vt.write(vt.blank(columns, rows), columns, rows, bytes)
  }

  // --- The way to a state ---

  function Walk(states: States, at: nat, steps: seq<ReceivedState>): seq<ReceivedState>
    decreases |states| + 1 - |steps|
  {
    if at !in states || |steps| > |states| then []
    else if states[at].parent == NO_PARENT then [states[at]] + steps
    else Walk(states, states[at].parent, [states[at]] + steps)
  }

  function StepsTo(states: States, num: nat): seq<ReceivedState> { Walk(states, num, []) }

  /** The screen after the first n steps. */
  function Replay<S>(vt: Vterm<S>, steps: seq<ReceivedState>): S
    requires steps != []
  {
    var s := Last(steps);
    if |steps| == 1 then Draw(vt, s.diff, s.columns, s.rows)
    else vt.write(Replay(vt, steps[..|steps| - 1]), s.columns, s.rows, s.diff)
  }

  function DescribeScreen<S>(vt: Vterm<S>, steps: seq<ReceivedState>): Bytes {
    if steps == [] then [] else vt.describe(Replay(vt, steps))
  }

  // --- Changes from the server ---

  /** What a host message asks for: bytes, and the last width and height given. */
  datatype HostDiff = HostDiff(bytes: Bytes, columns: Option<nat>, rows: Option<nat>)

  datatype Output = Output(bytes: Bytes, replace: bool, screen: Bytes, skipLines: nat)

  datatype Receiver<S> = Receiver(
    states: States, latest: nat, ackNum: nat, shownScroll: nat, mirror: S, output: seq<Output>)

  function Size(given: Option<nat>, otherwise: nat): nat {
    if given.Some? then Max(1, Min(given.value, 4096)) else otherwise
  }

  predicate Accepts<S>(r: Receiver<S>, oldNum: nat, newNum: nat) {
    && newNum > r.latest && newNum !in r.states && oldNum in r.states
    && (oldNum == r.latest || StepsTo(r.states, oldNum) != [])
  }

  /** The screen the changes are written on. */
  function BaseScreen<S>(vt: Vterm<S>, r: Receiver<S>, oldNum: nat): S
    requires oldNum in r.states
  {
    if oldNum == r.latest then r.mirror
    else Draw(vt, DescribeScreen(vt, StepsTo(r.states, oldNum)), r.states[oldNum].columns, r.states[oldNum].rows)
  }

  function NewState<S>(vt: Vterm<S>, r: Receiver<S>, oldNum: nat, newNum: nat, diff: HostDiff): ReceivedState
    requires oldNum in r.states
  {
    var base := r.states[oldNum];
    var columns, rows := Size(diff.columns, base.columns), Size(diff.rows, base.rows);
    ReceivedState(newNum, oldNum, diff.bytes, columns, rows,
                  base.scrollIndex + vt.scrolled(BaseScreen(vt, r, oldNum), columns, rows, diff.bytes))
  }

  function NewOutput<S>(vt: Vterm<S>, r: Receiver<S>, oldNum: nat, diff: HostDiff): Output
    requires oldNum in r.states
  {
    var skip := Max(0, r.shownScroll - r.states[oldNum].scrollIndex);
    if oldNum == r.latest then Output(diff.bytes, false, [], skip)
    else Output(diff.bytes, true, DescribeScreen(vt, StepsTo(r.states, oldNum)), skip)
  }

  function ApplyDiff<S>(vt: Vterm<S>, r: Receiver<S>, oldNum: nat, newNum: nat, diff: HostDiff): Receiver<S> {
    if !Accepts(r, oldNum, newNum) then r
    else
      var state := NewState(vt, r, oldNum, newNum, diff);
      Receiver(r.states[newNum := state], newNum, newNum, Max(r.shownScroll, state.scrollIndex),
               vt.write(BaseScreen(vt, r, oldNum), state.columns, state.rows, diff.bytes),
               r.output + [NewOutput(vt, r, oldNum, diff)])
  }

  // --- Folding what the server no longer starts from ---

  /** A tree: each state is a root or changes from a state with a lower number. */
  predicate TreeOk(states: States) {
    forall n :: n in states ==>
      && states[n].num == n && n != NO_PARENT
      && (states[n].parent == NO_PARENT || (states[n].parent in states && states[n].parent < n))
  }

  /** Whether the way up from at stays among the states kept until one that is or becomes a root. */
  predicate Through(states: States, num: nat, at: nat)
    requires TreeOk(states)
    decreases at
  {
    at in states && at >= num
    && (states[at].parent == NO_PARENT || at == num || Through(states, num, states[at].parent))
  }

  predicate BecomesRoot(states: States, num: nat, n: nat)
    requires TreeOk(states) && n in states
  {
    n == num || !(states[n].parent == NO_PARENT || Through(states, num, states[n].parent))
  }

  function Folded<S>(vt: Vterm<S>, states: States, num: nat, n: nat): ReceivedState
    requires TreeOk(states) && n in states
  {
    if BecomesRoot(states, num, n)
    then states[n].(diff := DescribeScreen(vt, StepsTo(states, n)), parent := NO_PARENT)
    else states[n]
  }

  function Fold<S>(vt: Vterm<S>, states: States, num: nat): States
    requires TreeOk(states)
  {
    map n | n in states && n >= num && (BecomesRoot(states, num, n) ==> StepsTo(states, n) != [])
          :: Folded(vt, states, num, n)
  }

  ghost function DiffBytes(states: States, keys: set<nat>): nat
    requires keys <= states.Keys
  {
    if keys == {} then 0
    else
      var n :| n in keys;
      |states[n].diff| + DiffBytes(states, keys - {n})
  }

  /** The sum does not depend on the order it is made in. */
  lemma {:induction false} DiffBytesAnyOrder(states: States, keys: set<nat>, n: nat)
    requires keys <= states.Keys && n in keys
    ensures DiffBytes(states, keys) == |states[n].diff| + DiffBytes(states, keys - {n})
    decreases keys
  {
    var m :| m in keys && DiffBytes(states, keys) == |states[m].diff| + DiffBytes(states, keys - {m});
    if m != n {
      DiffBytesAnyOrder(states, keys - {m}, n);
      DiffBytesAnyOrder(states, keys - {n}, m);
      assert keys - {m} - {n} == keys - {n} - {m};
    }
  }

  ghost predicate Crowded(states: States) {
    |states| >= MAX_RECEIVED_STATES || DiffBytes(states, states.Keys) >= MAX_RECEIVED_BYTES
  }

  ghost predicate Folds(states: States, num: nat) {
    num in states && Crowded(states)
  }

  ghost function ThrowAwayUntil<S>(vt: Vterm<S>, r: Receiver<S>, num: nat): Receiver<S>
    requires TreeOk(r.states)
  {
    if Folds(r.states, num) then r.(states := Fold(vt, r.states, num)) else r
  }

  // --- Resuming ---

  function Resumed<S>(vt: Vterm<S>, states: States, latest: nat): Receiver<S>
    requires latest in states
  {
    var screen := DescribeScreen(vt, StepsTo(states, latest));
    Receiver(states, latest, latest, states[latest].scrollIndex,
             Draw(vt, screen, states[latest].columns, states[latest].rows), [Output([], true, screen, 0)])
  }

  /** mosh-server's first screen, an empty 80x24 one. */
  function Start<S>(vt: Vterm<S>): Receiver<S> {
    Receiver(map[0 := ReceivedState(0, NO_PARENT, [], 80, 24, 0)], 0, 0, 0, Draw(vt, [], 80, 24), [])
  }

  // --- The operations in place ---

  class Screens<S(!new)> {
    const vt: Vterm<S>
    var states: States
    var latest: nat
    var ackNum: nat
    var shownScroll: nat
    var mirror: S
    var output: seq<Output>

    ghost function State(): Receiver<S>
      reads this
    {
      Receiver(states, latest, ackNum, shownScroll, mirror, output)
    }

    constructor (vt: Vterm<S>)
      ensures State() == Start(vt) && this.vt == vt
    {
      this.vt := vt;
      states, latest, ackNum := map[0 := ReceivedState(0, NO_PARENT, [], 80, 24, 0)], 0, 0;
      shownScroll, mirror, output := 0, Draw(vt, [], 80, 24), [];
    }

    constructor Resume(vt: Vterm<S>, states: States, latest: nat)
      requires latest in states
      ensures State() == Resumed(vt, states, latest) && this.vt == vt
    {
      var screen := DescribeScreen(vt, StepsTo(states, latest));
      this.vt := vt;
      this.states, this.latest, ackNum := states, latest, latest;
      output, shownScroll := [Output([], true, screen, 0)], states[latest].scrollIndex;
      mirror := Draw(vt, screen, states[latest].columns, states[latest].rows);
    }

    method Steps(num: nat) returns (steps: seq<ReceivedState>)
      ensures steps == StepsTo(states, num)
    {
      steps := [];
      var at := num;
      while true
        invariant |steps| <= |states| + 1
        invariant Walk(states, at, steps) == StepsTo(states, num)
        decreases |states| + 1 - |steps|
      {
        if at !in states || |steps| > |states| {
          return [];
        }
        steps := [states[at]] + steps;
        if states[at].parent == NO_PARENT {
          return;
        }
        at := states[at].parent;
      }
    }

    method Write(bytes: Bytes, columns: nat, rows: nat) returns (scrolled: nat)
      modifies this`mirror
      ensures mirror == vt.write(old(mirror), columns, rows, bytes)
      ensures scrolled == vt.scrolled(old(mirror), columns, rows, bytes)
    {
      scrolled := vt.scrolled(mirror, columns, rows, bytes);
      mirror := vt.write(mirror, columns, rows, bytes);
    }

    method Apply(oldNum: nat, newNum: nat, diff: HostDiff)
      modifies this
      ensures State() == ApplyDiff(vt, old(State()), oldNum, newNum, diff)
    {
      hide StepsTo, DescribeScreen, Draw, Size;
      if newNum <= latest || newNum in states || oldNum !in states {
        return;
      }
      var base := states[oldNum];
      var columns, rows := Size(diff.columns, base.columns), Size(diff.rows, base.rows);
      var skipLines := Max(0, shownScroll - base.scrollIndex);
      var scrolled;
      if oldNum == latest {
        scrolled := Write(diff.bytes, columns, rows);
        output := output + [Output(diff.bytes, false, [], skipLines)];
      } else {
        var steps := Steps(oldNum);
        if steps == [] {
          return;
        }
        var screen := DescribeScreen(vt, steps);
        mirror := Draw(vt, screen, base.columns, base.rows);
        scrolled := Write(diff.bytes, columns, rows);
        output := output + [Output(diff.bytes, true, screen, skipLines)];
      }
      var state := ReceivedState(newNum, oldNum, diff.bytes, columns, rows, base.scrollIndex + scrolled);
      states := states[newNum := state];
      latest := newNum;
      shownScroll := Max(shownScroll, state.scrollIndex);
      ackNum := newNum;
    }

    method IsCrowded() returns (crowded: bool)
      ensures crowded <==> Crowded(states)
    {
      var bytes: nat, todo := 0, states.Keys;
      while todo != {}
        invariant todo <= states.Keys
        invariant bytes + DiffBytes(states, todo) == DiffBytes(states, states.Keys)
        decreases todo
      {
        var n :| n in todo;
        DiffBytesAnyOrder(states, todo, n);
        bytes := bytes + |states[n].diff|;
        todo := todo - {n};
      }
      crowded := |states| >= MAX_RECEIVED_STATES || bytes >= MAX_RECEIVED_BYTES;
    }

    method IsThroughKept(num: nat, state: ReceivedState) returns (through: bool)
      requires TreeOk(states)
      ensures through <==> state.parent == NO_PARENT || Through(states, num, state.parent)
    {
      var at: nat := state.parent;
      through := state.parent == NO_PARENT;
      while !through && at in states && at >= num
        invariant through <==> state.parent == NO_PARENT
        invariant Through(states, num, at) <==> Through(states, num, state.parent)
        decreases !through, at
      {
        if states[at].parent == NO_PARENT || at == num {
          through := true;
          break;
        }
        at := states[at].parent;
      }
    }

    method KeptState(num: nat, n: nat) returns (state: Option<ReceivedState>)
      requires TreeOk(states) && n in states
      ensures state == if n in Fold(vt, states, num) then Some(Fold(vt, states, num)[n]) else None
    {
      if n < num {
        return None;
      }
      var through := IsThroughKept(num, states[n]);
      if !through || n == num {
        var steps := Steps(n);
        return if steps == [] then None
               else Some(states[n].(diff := DescribeScreen(vt, steps), parent := NO_PARENT));
      }
      state := Some(states[n]);
    }

    method ThrowAway(num: nat)
      requires TreeOk(states)
      modifies this`states
      ensures State() == ThrowAwayUntil(vt, old(State()), num)
    {
      hide Crowded, TreeOk;
      var crowded := IsCrowded();
      if num !in states || !crowded {
        return;
      }
      var kept: States, todo := map[], states.Keys;
      ghost var done: set<nat>, fold := {}, Fold(vt, states, num);
      assert forall n :: n in fold ==> n in states;
      hide Fold;
      while todo != {}
        invariant states == old(states) && done + todo == states.Keys && done !! todo
        invariant forall n :: n in kept <==> n in done && n in fold
        invariant forall n :: n in kept ==> kept[n] == fold[n]
        decreases todo
      {
        var n :| n in todo;
        var state := KeptState(num, n);
        if state.Some? {
          kept := kept[n := state.value];
        }
        todo, done := todo - {n}, done + {n};
      }
      assert kept == fold;
      states := kept;
    }
  }
}
