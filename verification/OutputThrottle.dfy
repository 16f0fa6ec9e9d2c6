/** The throttle between the thread that reads from the server and the one that shows the output.
  * The atomic counter, the wake pipe and every step between two threads that the other can come in between. */
module OutputThrottle {

  const MAX_UNCONSUMED := 256 * 1024
  const READ_SIZE := 4096
  const DRAIN_SIZE := 64

  /** Where the reading thread is. */
  datatype Place =
    | Draining
      // About to ask throttled() for a stream, and about to read, having been told no
    | Checking(stream: nat)
    | Reading(stream: nat)
      // About to decide whether to watch the socket, and then whether to wait at all
    | Watching
    | Timing(ignoring: bool)
    | Polling(ignoring: bool, immediate: bool)

  /** held is what the SSH library has for each stream, owed how many wake-ups the other thread is about to write,
    * having taken from the count already. arrived and shown count all the bytes there were. */
  datatype State = State(count: int, pipe: nat, owed: nat, at: Place, held: seq<nat>, arrived: nat, shown: nat)

  datatype Action =
    | Consume(bytes: nat)
    | WriteWake
    | OtherWake
    | Arrive(stream: nat, bytes: nat)
      // What ends a poll besides the wake pipe: the socket, if it is watched, and timeouts and other descriptors
    | SocketReady
    | OtherEvent
    | Worker

  function Fewer(a: int, b: int): int { if a < b then a else b }

  predicate Throttled(s: State) { s.count > MAX_UNCONSUMED }

  function Initial(): State { State(0, 0, 0, Draining, [0, 0], 0, 0) }

  function After(s: Place): Place
    requires s.Checking? || s.Reading?
  {
    if s.stream == 0 then Checking(1) else Watching
  }

  /** What can happen next. A terminal only consumes what it was given. The library takes in data only while the
    * reading thread is in it. By itself the reading thread goes on from a poll only if that does not wait or there is
    * something in the pipe. */
  predicate Enabled(s: State, a: Action)
  {
    match a
    case Consume(bytes) => bytes <= s.count
    case WriteWake => s.owed > 0
    case OtherWake => true
    case Arrive(stream, _) => stream < |s.held| && !s.at.Polling?
    case SocketReady => s.at.Polling? && !s.at.ignoring
    case OtherEvent => s.at.Polling?
    case Worker =>
      && (s.at.Checking? || s.at.Reading? ==> s.at.stream < |s.held|)
      && (s.at.Polling? ==> s.at.immediate || s.pipe > 0)
  }

  function Woken(pipe: nat, capacity: nat): nat { if pipe < capacity then pipe + 1 else pipe }

  function Next(s: State, a: Action, capacity: nat): State
    requires Enabled(s, a)
  {
    match a
    case Consume(bytes) =>
      var crosses := s.count > MAX_UNCONSUMED && s.count - bytes <= MAX_UNCONSUMED;
      s.(count := s.count - bytes, shown := s.shown + bytes, owed := if crosses then s.owed + 1 else s.owed)
    case WriteWake => s.(owed := s.owed - 1, pipe := Woken(s.pipe, capacity))
    case OtherWake => s.(pipe := Woken(s.pipe, capacity))
    case Arrive(stream, bytes) =>
      s.(held := s.held[stream := s.held[stream] + bytes], arrived := s.arrived + bytes)
    case SocketReady => s.(at := Draining)
    case OtherEvent => s.(at := Draining)
    case Worker =>
      match s.at
      case Draining =>
        if s.pipe > 0 then s.(pipe := s.pipe - Fewer(s.pipe, DRAIN_SIZE)) else s.(at := Checking(0))
      case Checking(stream) => s.(at := if Throttled(s) then After(s.at) else Reading(stream))
      case Reading(stream) =>
        var n := Fewer(s.held[stream], READ_SIZE);
        if n == 0 then s.(at := After(s.at)) else
        s.(count := s.count + n, held := s.held[stream := s.held[stream] - n], at := Checking(stream))
      case Watching => s.(at := Timing(Throttled(s)))
      case Timing(ignoring) => s.(at := Polling(ignoring, !Throttled(s) && Holds(s)))
      case Polling(_, _) => s.(at := Draining)
  }

  predicate Holds(s: State) { exists stream | 0 <= stream < |s.held| :: s.held[stream] > 0 }

  // --- Runs ---

  predicate Runs(s: State, run: seq<Action>, capacity: nat)
    decreases |run|
  {
    run == [] || (Enabled(s, run[0]) && Runs(Next(s, run[0], capacity), run[1..], capacity))
  }

  function End(s: State, run: seq<Action>, capacity: nat): State
    requires Runs(s, run, capacity)
    decreases |run|
  {
    if run == [] then s else End(Next(s, run[0], capacity), run[1..], capacity)
  }

  // --- What every step keeps ---

  /** A wake-up is in the pipe or on its way there. */
  predicate WakePending(s: State) { s.pipe > 0 || s.owed > 0 }

  function Sum(held: seq<nat>): nat { if |held| == 2 then held[0] + held[1] else 0 }

  predicate Inv(s: State)
  {
    && 0 <= s.count <= MAX_UNCONSUMED + READ_SIZE
    && |s.held| == 2
    && s.arrived == Sum(s.held) + s.count + s.shown
    && (s.at.Checking? || s.at.Reading? ==> s.at.stream < 2)
    && (s.at.Reading? ==> s.count <= MAX_UNCONSUMED)
    && ((s.at.Timing? || s.at.Polling?) && s.at.ignoring ==> Throttled(s) || WakePending(s))
    && (s.at.Polling? && !s.at.immediate && Holds(s) ==> Throttled(s) || WakePending(s))
  }

  lemma StepKeeps(s: State, a: Action, capacity: nat)
    requires Inv(s) && Enabled(s, a) && capacity > 0
    ensures Inv(Next(s, a, capacity))
  {
  }

  lemma {:induction false} RunKeeps(s: State, run: seq<Action>, capacity: nat)
    requires Inv(s) && Runs(s, run, capacity) && capacity > 0
    ensures Inv(End(s, run, capacity))
    decreases |run|
  {
    hide Inv, Next, Enabled;
    if run != [] {
      StepKeeps(s, run[0], capacity);
      RunKeeps(Next(s, run[0], capacity), run[1..], capacity);
    }
  }

  ghost predicate Reachable(s: State, capacity: nat)
  {
    exists run :: Runs(Initial(), run, capacity) && End(Initial(), run, capacity) == s
  }

  lemma ReachableKeeps(s: State, capacity: nat)
    requires Reachable(s, capacity) && capacity > 0
    ensures Inv(s)
  {
    var run :| Runs(Initial(), run, capacity) && End(Initial(), run, capacity) == s;
    assert Inv(Initial());
    RunKeeps(Initial(), run, capacity);
  }

  // --- What it is for ---

  /** The output not shown yet stays bounded, and no byte is lost or shown twice. */
  lemma OutputIsBounded(s: State, capacity: nat)
    requires Reachable(s, capacity) && capacity > 0
    ensures 0 <= s.count <= 256 * 1024 + 4096
    ensures s.arrived == Sum(s.held) + s.count + s.shown
  {
    ReachableKeeps(s, capacity);
  }

  /** Waiting with no end in sight although there is something to read, or without looking for it. */
  predicate Asleep(s: State)
  {
    && s.at.Polling? && !s.at.immediate
    && (s.at.ignoring || exists stream | 0 <= stream < |s.held| :: s.held[stream] > 0)
  }

  /** No wake-up is lost: the reading thread never sleeps through room for more output unless a wake-up is in the
    * pipe or about to be written. */
  lemma NoWakeupIsLost(s: State, capacity: nat)
    requires Reachable(s, capacity) && capacity > 0
    requires Asleep(s) && s.count <= MAX_UNCONSUMED
    ensures WakePending(s)
  {
    ReachableKeeps(s, capacity);
  }

  /** Up to 64 wake-ups are taken out of the pipe at once. */
  lemma DrainsExactly(s: State, capacity: nat)
    requires s.at == Draining && s.pipe > 0
    ensures Next(s, Worker, capacity) == s.(pipe := if s.pipe <= 64 then 0 else s.pipe - 64)
  {
  }

  /** The steps with which a woken thread empties the pipe. */
  function Drains(pipe: nat): (run: seq<Action>)
  {
    if pipe == 0 then [] else [Worker] + Drains(pipe - Fewer(pipe, DRAIN_SIZE))
  }

  lemma {:induction false} DrainsToReading(s: State, capacity: nat)
    requires s.at == Draining && !Throttled(s) && |s.held| == 2
    ensures Runs(s, Drains(s.pipe) + [Worker, Worker], capacity)
    ensures End(s, Drains(s.pipe) + [Worker, Worker], capacity) == s.(pipe := 0, at := Reading(0))
    decreases s.pipe
  {
    var rest: seq<Action> := [Worker, Worker];
    if s.pipe == 0 {
      var checking := s.(at := Checking(0));
      assert Next(s, Worker, capacity) == checking;
      assert rest[1..] == [Worker] && [Worker][1..] == [];
      assert Drains(0) + rest == rest;
      assert Runs(checking, [Worker], capacity);
    } else {
      var next := Next(s, Worker, capacity);
      DrainsToReading(next, capacity);
      assert (Drains(s.pipe) + rest)[1..] == Drains(next.pipe) + rest;
    }
  }

  /** It is the wake-up that ends the sleep: without one written, and without the other events a poll looks for, the
    * thread sleeps on through any run, whatever the other thread takes from the count. */
  lemma {:induction false} SleepsUntilWoken(s: State, run: seq<Action>, capacity: nat)
    requires Asleep(s) && s.pipe == 0 && Runs(s, run, capacity)
    requires forall a :: a in run ==> !a.WriteWake? && !a.OtherWake? && !a.OtherEvent? && (a.SocketReady? ==> s.at.ignoring)
    ensures Asleep(End(s, run, capacity)) && End(s, run, capacity).pipe == 0
    decreases |run|
  {
    if run != [] {
      SleepsUntilWoken(Next(s, run[0], capacity), run[1..], capacity);
    }
  }

  function Writes(owed: nat): (run: seq<Action>) { seq(owed, i requires 0 <= i < owed => WriteWake) }

  /** Writing what is owed puts something in the pipe, unless nothing is. */
  lemma {:induction false} WritesAll(s: State, capacity: nat)
    requires capacity > 0 && s.at.Polling?
    ensures Runs(s, Writes(s.owed), capacity)
    ensures var e := End(s, Writes(s.owed), capacity);
      e == s.(owed := 0, pipe := e.pipe) && e.pipe >= s.pipe && (s.owed > 0 ==> e.pipe > 0)
    decreases s.owed
  {
    if s.owed > 0 {
      var next := Next(s, WriteWake, capacity);
      WritesAll(next, capacity);
      assert Writes(s.owed)[1..] == Writes(next.owed);
    }
  }

  /** When there is room the sleeping thread comes to read with nothing else happening than the other thread writing the
    * wake-ups it owes: these end the sleep, as SleepsUntilWoken says that nothing of the two threads' own does without. */
  lemma SleeperReads(s: State, capacity: nat) returns (run: seq<Action>)
    requires Reachable(s, capacity) && capacity > 0
    requires Asleep(s) && s.count <= MAX_UNCONSUMED
    ensures forall a :: a in run ==> a == Worker || a == WriteWake
    ensures s.owed == 0 ==> s.pipe > 0 && forall a :: a in run ==> a == Worker
    ensures Runs(s, run, capacity) && End(s, run, capacity) == s.(pipe := 0, owed := 0, at := Reading(0))
  {
    NoWakeupIsLost(s, capacity);
    ReachableKeeps(s, capacity);
    WritesAll(s, capacity);
    var woken := End(s, Writes(s.owed), capacity);
    DrainsToReading(woken.(at := Draining), capacity);
    var rest := Drains(woken.pipe) + [Worker, Worker];
    assert ([Worker] + rest)[1..] == rest;
    RunsOn(s, Writes(s.owed), [Worker] + rest, capacity);
    run := Writes(s.owed) + ([Worker] + rest);
    DrainsOnlyWork(woken.pipe);
  }

  lemma {:induction false} DrainsOnlyWork(pipe: nat)
    ensures forall a :: a in Drains(pipe) ==> a == Worker
  {
    if pipe > 0 {
      DrainsOnlyWork(pipe - Fewer(pipe, DRAIN_SIZE));
    }
  }

  // --- How often it wakes ---

  function One(b: bool): nat { if b then 1 else 0 }

  /** How often the count comes to be above the limit, and how often a wake-up comes to be owed. */
  function Rises(s: State, run: seq<Action>, capacity: nat): nat
    requires Runs(s, run, capacity)
    decreases |run|
  {
    if run == [] then 0 else
    var e := Next(s, run[0], capacity);
    One(s.count <= 256 * 1024 && e.count > 256 * 1024) + Rises(e, run[1..], capacity)
  }

  function Wakes(s: State, run: seq<Action>, capacity: nat): nat
    requires Runs(s, run, capacity)
    decreases |run|
  {
    if run == [] then 0 else
    var e := Next(s, run[0], capacity);
    One(e.owed > s.owed) + Wakes(e, run[1..], capacity)
  }

  /** Showing output wakes the reading thread once for each time it was throttled, when that is over, and not for every
    * piece shown. */
  lemma {:induction false} OneWakeForEachRise(s: State, run: seq<Action>, capacity: nat)
    requires Runs(s, run, capacity)
    ensures Wakes(s, run, capacity) + One(End(s, run, capacity).count > 256 * 1024)
         == Rises(s, run, capacity) + One(s.count > 256 * 1024)
    decreases |run|
  {
    if run != [] {
      OneWakeForEachRise(Next(s, run[0], capacity), run[1..], capacity);
    }
  }

  // --- That it reads ---

  /** What has left the library for one stream is what the count has grown by, all of it or up to the limit. */
  predicate HasRead(s: State, e: State, stream: nat)
  {
    && |s.held| == |e.held| == 2 && stream < 2
    && e.held[stream] <= s.held[stream] && e.held[1 - stream] == s.held[1 - stream]
    && e.count - s.count == s.held[stream] - e.held[stream]
    && (e.held[stream] == 0 || e.count > 256 * 1024)
    && e == s.(count := e.count, held := e.held, at := e.at)
    && e.at == if stream == 0 then Checking(1) else Watching
  }

  predicate OnlyWork(run: seq<Action>) { forall a :: a in run ==> a == Worker }

  lemma WorkFirst(s: State, next: State, run: seq<Action>, capacity: nat) returns (all: seq<Action>)
    requires Enabled(s, Worker) && next == Next(s, Worker, capacity) && Runs(next, run, capacity) && OnlyWork(run)
    ensures OnlyWork(all) && Runs(s, all, capacity) && End(s, all, capacity) == End(next, run, capacity)
  {
    all := [Worker] + run;
    assert all[1..] == run;
  }

  /** Asked for a stream, the thread reads all there is, or until the count is above the limit. */
  lemma {:induction false} ChecksStream(s: State, capacity: nat) returns (run: seq<Action>)
    requires s.at.Checking? && s.at.stream < 2 && |s.held| == 2
    ensures OnlyWork(run) && Runs(s, run, capacity) && HasRead(s, End(s, run, capacity), s.at.stream)
    decreases s.held[s.at.stream], 1
  {
    var next := Next(s, Worker, capacity);
    if s.count > MAX_UNCONSUMED {
      run := WorkFirst(s, next, [], capacity);
    } else {
      var rest := ReadsStream(next, capacity);
      run := WorkFirst(s, next, rest, capacity);
    }
  }

  lemma {:induction false} ReadsStream(s: State, capacity: nat) returns (run: seq<Action>)
    requires s.at.Reading? && s.at.stream < 2 && |s.held| == 2 && s.count <= MAX_UNCONSUMED
    ensures OnlyWork(run) && Runs(s, run, capacity) && HasRead(s, End(s, run, capacity), s.at.stream)
    decreases s.held[s.at.stream], 0
  {
    var next := Next(s, Worker, capacity);
    if s.held[s.at.stream] == 0 {
      run := WorkFirst(s, next, [], capacity);
    } else {
      var rest := ChecksStream(next, capacity);
      run := WorkFirst(s, next, rest, capacity);
    }
  }

  /** All that has left the library for either stream has been handed on. What is left over is left for the limit. */
  predicate HasReadBoth(s: State, e: State)
  {
    && |s.held| == |e.held| == 2
    && e.held[0] <= s.held[0] && e.held[1] <= s.held[1]
    && e.count - s.count == s.held[0] + s.held[1] - e.held[0] - e.held[1]
    && (e.held == [0, 0] || e.count > 256 * 1024)
    && e == s.(count := e.count, held := e.held, at := Watching)
  }

  lemma BothRead(s: State, m: State, e: State)
    requires HasRead(s, m, 0) && HasRead(m, e, 1)
    ensures HasReadBoth(s, e)
  {
  }

  /** By itself the reading thread comes from asking for the first stream to the end of a turn, having read both streams
    * empty or up to the limit. */
  lemma ReadsAll(s: State, capacity: nat) returns (run: seq<Action>)
    requires s.at == Checking(0) && |s.held| == 2
    ensures OnlyWork(run) && Runs(s, run, capacity) && HasReadBoth(s, End(s, run, capacity))
  {
    var first := ChecksStream(s, capacity);
    var m := End(s, first, capacity);
    var second := ChecksStream(m, capacity);
    RunsOn(s, first, second, capacity);
    BothRead(s, m, End(m, second, capacity));
    run := first + second;
  }

  /** So whatever the sleeping thread slept through is read: with the wake-ups owed written it comes to the end of a turn
    * with both streams read empty, or up to the limit. */
  lemma SleeperCatchesUp(s: State, capacity: nat) returns (run: seq<Action>)
    requires Reachable(s, capacity) && capacity > 0
    requires Asleep(s) && s.count <= MAX_UNCONSUMED
    ensures forall a :: a in run ==> a == Worker || a == WriteWake
    ensures Runs(s, run, capacity) && HasReadBoth(s.(pipe := 0, owed := 0), End(s, run, capacity))
  {
    ReachableKeeps(s, capacity);
    var woken := SleeperReads(s, capacity);
    var reading := End(s, woken, capacity);
    var first := ReadsStream(reading, capacity);
    var m := End(reading, first, capacity);
    var second := ChecksStream(m, capacity);
    RunsOn(reading, first, second, capacity);
    RunsOn(s, woken, first + second, capacity);
    BothRead(reading, m, End(m, second, capacity));
    run := woken + (first + second);
  }

  // --- That it happens ---

  lemma {:induction false} RunsOn(s: State, first: seq<Action>, more: seq<Action>, capacity: nat)
    requires Runs(s, first, capacity) && Runs(End(s, first, capacity), more, capacity)
    ensures Runs(s, first + more, capacity)
    ensures End(s, first + more, capacity) == End(End(s, first, capacity), more, capacity)
    decreases |first|
  {
    if first == [] {
      assert first + more == more;
    } else {
      RunsOn(Next(s, first[0], capacity), first[1..], more, capacity);
      assert (first + more)[1..] == first[1..] + more;
    }
  }

  /** The reading thread reads on until it is throttled, as long as there is enough to read. */
  lemma {:induction false} ReadsUntilThrottled(s: State, n: nat, capacity: nat) returns (run: seq<Action>)
    requires s.at == Checking(0) && |s.held| == 2 && s.count + READ_SIZE * n == MAX_UNCONSUMED + READ_SIZE
    requires s.held[0] >= READ_SIZE * n
    ensures Runs(s, run, capacity)
    ensures End(s, run, capacity) == s.(count := s.count + READ_SIZE * n, held := s.held[0 := s.held[0] - READ_SIZE * n])
    decreases n
  {
    if n == 0 {
      run := [];
      assert s.held[0 := s.held[0]] == s.held;
    } else {
      var next := s.(count := s.count + READ_SIZE, held := s.held[0 := s.held[0] - READ_SIZE]);
      var two := [Worker, Worker];
      assert two[1..] == [Worker] && [Worker][1..] == [];
      assert Next(s, Worker, capacity) == s.(at := Reading(0));
      assert Next(Next(s, Worker, capacity), Worker, capacity) == next;
      assert Runs(s.(at := Reading(0)), [Worker], capacity) && Runs(s, two, capacity) && End(s, two, capacity) == next;
      var rest := ReadsUntilThrottled(next, n - 1, capacity);
      RunsOn(s, two, rest, capacity);
      assert next.held[0 := next.held[0] - READ_SIZE * (n - 1)] == s.held[0 := s.held[0] - READ_SIZE * n];
      run := two + rest;
    }
  }

  lemma OneStep(s: State, run: seq<Action>, a: Action, capacity: nat)
    requires Runs(s, run, capacity) && Enabled(End(s, run, capacity), a)
    ensures Runs(s, run + [a], capacity) && End(s, run + [a], capacity) == Next(End(s, run, capacity), a, capacity)
  {
    var e := End(s, run, capacity);
    assert [a][1..] == [] && Runs(Next(e, a, capacity), [], capacity);
    RunsOn(s, run, [a], capacity);
  }

  /** There are runs to a sleeping reading thread with room for output: the terminal has just taken some and its wake-up
    * is all that will end the sleep. */
  lemma SleepHappens(capacity: nat) returns (s: State)
    ensures Reachable(s, capacity) && Asleep(s) && s.count <= MAX_UNCONSUMED && s.pipe == 0 && s.owed == 1
  {
    var much := MAX_UNCONSUMED + READ_SIZE;
    var run: seq<Action> := [];
    OneStep(Initial(), run, Arrive(0, much), capacity);
    run := run + [Arrive(0, much)];
    OneStep(Initial(), run, Worker, capacity);
    run := run + [Worker];
    var full := End(Initial(), run, capacity);
    assert full == Initial().(held := [much, 0], arrived := much, at := Checking(0));
    var reading := ReadsUntilThrottled(full, 65, capacity);
    RunsOn(Initial(), run, reading, capacity);
    run := run + reading;
    var end := End(Initial(), run, capacity);
    assert end.count == much && end.at == Checking(0) && end.pipe == 0 && end.owed == 0;
    OneStep(Initial(), run, Worker, capacity);
    run := run + [Worker];
    OneStep(Initial(), run, Worker, capacity);
    run := run + [Worker];
    OneStep(Initial(), run, Worker, capacity);
    run := run + [Worker];
    OneStep(Initial(), run, Worker, capacity);
    run := run + [Worker];
    assert End(Initial(), run, capacity) == end.(at := Polling(true, false));
    OneStep(Initial(), run, Consume(READ_SIZE), capacity);
    run := run + [Consume(READ_SIZE)];
    s := End(Initial(), run, capacity);
  }

  // --- The steps in place ---

  class Threads {
    const capacity: nat
    var count: int
    var pipe: nat
    var owed: nat
    var at: Place
    var held: seq<nat>
    var arrived: nat
    var shown: nat

    ghost function Now(): State
      reads this
    {
      State(count, pipe, owed, at, held, arrived, shown)
    }

    constructor (capacity: nat)
      ensures Now() == Initial() && this.capacity == capacity
    {
      this.capacity := capacity;
      count, pipe, owed, at, held, arrived, shown := 0, 0, 0, Draining, [0, 0], 0, 0;
    }

    /** consumed() up to its atomic subtraction: whether a wake-up has to follow. */
    method Consumed(bytes: nat)
      requires Enabled(Now(), Consume(bytes))
      modifies `count, `owed, `shown
      ensures Now() == Next(old(Now()), Consume(bytes), capacity)
    {
      var before := count;
      count := count - bytes;
      shown := shown + bytes;
      if before > MAX_UNCONSUMED && before - bytes <= MAX_UNCONSUMED {
        owed := owed + 1;
      }
    }

    /** wake(), after consumed(). A full pipe already guarantees a wake-up. */
    method Wake()
      requires Enabled(Now(), WriteWake)
      modifies `owed, `pipe
      ensures Now() == Next(old(Now()), WriteWake, capacity)
    {
      owed := owed - 1;
      if pipe < capacity {
        pipe := pipe + 1;
      }
    }

    /** drainWakePipe(), one read. */
    method Drain()
      requires at == Draining
      modifies `pipe, `at
      ensures Now() == Next(old(Now()), Worker, capacity)
    {
      if pipe > 0 {
        pipe := pipe - if pipe < DRAIN_SIZE then pipe else DRAIN_SIZE;
      } else {
        at := Checking(0);
      }
    }

    /** readAvailable(): asking throttled() for a stream. */
    method Check()
      requires at.Checking? && at.stream < |held|
      modifies `at
      ensures Now() == Next(old(Now()), Worker, capacity)
    {
      at := if count > MAX_UNCONSUMED then After(at) else Reading(at.stream);
    }

    /** readAvailable(): one read, and counting it before it is handed on. */
    method Read()
      requires at.Reading? && at.stream < |held|
      modifies `at, `count, `held
      ensures Now() == Next(old(Now()), Worker, capacity)
    {
      var stream := at.stream;
      var n := if held[stream] < READ_SIZE then held[stream] else READ_SIZE;
      if n == 0 {
        at := After(at);
      } else {
        held := held[stream := held[stream] - n];
        count := count + n;
        at := Checking(stream);
      }
    }

    /** readLoop(): which events to poll the socket for. */
    method Watch()
      requires at.Watching?
      modifies `at
      ensures Now() == Next(old(Now()), Worker, capacity)
    {
      at := Timing(count > MAX_UNCONSUMED);
    }

    /** readLoop(): whether to wait at all. */
    method Time()
      requires at.Timing?
      modifies `at
      ensures Now() == Next(old(Now()), Worker, capacity)
    {
      var buffered := false;
      if count <= MAX_UNCONSUMED {
        for stream := 0 to |held|
          invariant buffered <==> exists k | 0 <= k < stream :: held[k] > 0
        {
          buffered := buffered || held[stream] > 0;
        }
      }
      at := Polling(at.ignoring, buffered);
    }
  }
}
