/** Whole runs of the sending side against a mosh-server, over a network that loses, repeats and
  * reorders, with the app going away at any step and coming back from its journal. */
module MoshSession {
  import opened MoshTypes
  import opened MoshSender

  /** typed is everything typed so far; counts maps every state number journaled or sent to the number
    * of events it stands for. net holds every instruction sent, server the states mosh-server holds,
    * acks every number it has held; front is the number of the oldest state still kept for sending. */
  datatype World = World(
    client: Option<Sender>, disk: Option<seq<Record>>, typed: seq<UserEvent>, counts: map<nat, nat>,
    net: set<Instruction>, server: map<nat, seq<UserEvent>>, acks: set<nat>, front: nat, now: nat)

  /** A change to the screen that an instruction brought and that was taken: its number, when, and whether it was empty. */
  datatype Change = Change(latest: nat, time: nat, empty: bool)

  /** n in the crashes is how many of the operation's journal writes were complete. */
  datatype Action =
    | Typing(keys: Bytes)
    | Resizing(columns: nat, rows: nat)
    | Waiting(t: Timing)
    | Ticking(t: Timing, rewrite: bool, rest: Rest)
    | CrashInTick(t: Timing, rewrite: bool, rest: Rest, n: nat)
    | Hearing(ackNum: nat, change: Option<Change>)
    | WritingJournal(rest: Rest)
    | JournalingOther(record: Record)
    | EndingSession(time: nat)
    | Crash
    | Resuming(rest: Rest, latest: nat, time: nat, columns: nat, rows: nat)
    | CrashInResume(rest: Rest, latest: nat, time: nat, columns: nat, rows: nat, n: nat)
    | ServerTaking(m: Instruction)

  // --- Steps ---

  predicate IsOther(r: Record) {
    r.Address? || r.Note? || r.SeqReserved? || r.Screen? || r.Latest?
  }

  predicate Others(rest: Rest) {
    && (forall i :: 0 <= i < |rest.head| ==> IsOther(rest.head[i]))
    && (forall i :: 0 <= i < |rest.screens| ==> IsOther(rest.screens[i]))
  }

  predicate Sized(columns: nat, rows: nat) { columns <= 4096 && rows <= 4096 }

  /** A running client; what it takes for granted is a clock that does not go back, sizes the journal
    * can hold, acknowledgments from the server and state numbers that stay below the last one. */
  predicate Enabled(w: World, a: Action) {
    match a
    case Typing(_) => Running(w)
    case Resizing(columns, rows) => Running(w) && Sized(columns, rows)
    case Waiting(t) => Running(w) && t.Rising() && t.First() >= w.now
    case Ticking(t, _, rest) => Running(w) && Others(rest) && CanTick(w, t)
    case CrashInTick(t, _, rest, _) => Running(w) && Others(rest) && CanTick(w, t)
    case Hearing(ackNum, _) => Running(w) && ackNum in w.acks
    case WritingJournal(rest) => Running(w) && Others(rest) && !w.client.value.ending.shutdownInProgress
    case JournalingOther(record) => Running(w) && IsOther(record)
    case EndingSession(_) => Running(w)
    case Crash => w.client.Some?
    case Resuming(rest, _, _, columns, rows) => w.client.None? && w.disk.Some? && Others(rest) && Sized(columns, rows)
    case CrashInResume(rest, _, _, columns, rows, _) =>
      w.client.None? && w.disk.Some? && Others(rest) && Sized(columns, rows)
    case ServerTaking(m) => m in w.net && m.oldNum in w.server && m.newNum !in w.server
  }

  predicate Running(w: World) { w.client.Some? && w.client.value.sent != [] }

  predicate CanTick(w: World, t: Timing)
    requires Running(w)
  {
    t.Rising() && t.First() >= w.now && (w.client.value.ending.shutdownInProgress || NextNum(w.client.value) < SHUTDOWN)
  }

  function OnDisk(disk: Option<seq<Record>>, o: Outcome, n: nat, rest: Rest): Option<seq<Record>> {
    if disk.Some? then Some(FileAfter(disk.value, o, n, rest)) else None
  }

  function Update(w: World, o: Outcome): World {
    w.(client := Some(o.sender), disk := OnDisk(w.disk, o, 3, Rest([], [])))
  }

  function GrowLast(typed: seq<UserEvent>, keys: Bytes): seq<UserEvent>
    requires typed != []
  {
    typed[|typed| - 1 := Last(typed).(keys := Last(typed).keys + keys)]
  }

  function TypedAfter(w: World, keys: Bytes): seq<UserEvent>
    requires Running(w)
  {
    var s := w.client.value;
    if s.ending.shutdownInProgress || keys == [] then w.typed
    else if Growable(s) && w.typed != [] then GrowLast(w.typed, keys)
    else w.typed + [UserEvent(keys, 0, 0)]
  }

  function Resized(typed: seq<UserEvent>, columns: nat, rows: nat): seq<UserEvent> {
    if columns == 0 || rows == 0 then typed else typed + [UserEvent([], columns, rows)]
  }

  function Forget(server: map<nat, seq<UserEvent>>, below: nat): map<nat, seq<UserEvent>> {
    map n | n in server && n >= below :: server[n]
  }

  /** Only a change that is taken counts as heard. */
  function Heard(s: Sender, change: Option<Change>): Sender {
    if change.None? then s
    else
      s.(ackNum := change.value.latest,
         timers := s.timers.(lastHeard := change.value.time,
                             pendingDataAck := s.timers.pendingDataAck || !change.value.empty))
  }

  function Resume(disk: seq<Record>, latest: nat, now: nat, columns: nat, rows: nat): Outcome {
    var s := Reserve(Restore(Replay(disk), latest, now));
    Resize(s, columns, rows).(first := Some(s))
  }

  function FrontOf(w: World): nat {
    if Running(w) then w.client.value.sent[0].num
    else if w.disk.Some? then Replay(w.disk.value).front
    else w.front
  }

  function Act(w: World, a: Action): World
    requires Enabled(w, a)
  {
    match a
    case Typing(keys) => Update(w, Type(w.client.value, keys)).(typed := TypedAfter(w, keys))
    case Resizing(columns, rows) =>
      Update(w, Resize(w.client.value, columns, rows)).(
        typed := if w.client.value.ending.shutdownInProgress then w.typed else Resized(w.typed, columns, rows))
    case Waiting(t) => w.(client := Some(Waited(w.client.value, t)), now := t.end)
    case Ticking(t, rewrite, rest) =>
      var o := Tick(w.client.value, t, rewrite);
      w.(client := Some(o.sender), disk := OnDisk(w.disk, o, 3, rest), now := t.end,
         net := if o.out.Some? then w.net + {o.out.value} else w.net,
         counts := if o.out.Some? then w.counts[o.out.value.newNum := |w.typed|] else w.counts)
    case CrashInTick(t, rewrite, rest, n) =>
      var o := Tick(w.client.value, t, rewrite);
      w.(client := None, disk := OnDisk(w.disk, o, n, rest),
         counts := if n >= 2 && o.record.Some? && o.out.Some?
                   then w.counts[o.out.value.newNum := |w.typed|] else w.counts)
    case Hearing(ackNum, change) =>
      var o := ProcessAcknowledgment(w.client.value, ackNum);
      Update(w, o.(sender := Heard(o.sender, change)))
    case WritingJournal(rest) =>
      var s := w.client.value;
      var s1 := Reserve(s.(book := s.book.(journaling := true)));
      w.(client := Some(s1), disk := Some(RewriteRecords(s1, rest)))
    case JournalingOther(record) => Update(w, Recorded(w.client.value, record))
    case EndingSession(time) => w.(client := Some(Shutdown(w.client.value, time)), disk := None)
    case Crash => w.(client := None)
    case Resuming(rest, latest, time, columns, rows) =>
      var o := Resume(w.disk.value, latest, time, columns, rows);
      w.(client := Some(o.sender), disk := OnDisk(w.disk, o, 3, rest), now := time,
         typed := Resized(w.typed, columns, rows))
    case CrashInResume(rest, latest, time, columns, rows, n) =>
      w.(disk := OnDisk(w.disk, Resume(w.disk.value, latest, time, columns, rows), n, rest),
         typed := if n >= 2 then Resized(w.typed, columns, rows) else w.typed)
    case ServerTaking(m) =>
      w.(server := Forget(w.server[m.newNum := w.server[m.oldNum] + m.diff], m.throwawayNum),
         acks := w.acks + {m.newNum})
  }

  function Next(w: World, a: Action): World
    requires Enabled(w, a)
  {
    var w' := Act(w, a);
    w'.(front := FrontOf(w'))
  }

  /** What start() leaves: the size is the first event. */
  function Initial(now: nat, columns: nat, rows: nat): World {
    World(Some(Resize(Start(now), columns, rows).sender), None, Resized([], columns, rows), map[0 := 0], {},
          map[0 := []], {0}, 0, now)
  }

  predicate Runs(w: World, run: seq<Action>)
    decreases |run|
  {
    run != [] ==> Enabled(w, run[0]) && Runs(Next(w, run[0]), run[1..])
  }

  function After(w: World, run: seq<Action>): World
    requires Runs(w, run)
    decreases |run|
  {
    if run == [] then w else After(Next(w, run[0]), run[1..])
  }

  // --- The invariant ---

  predicate WellFormed(e: UserEvent) {
    if e.columns == 0 then e.rows == 0 else e.keys == [] && e.columns <= 4096 && 1 <= e.rows <= 4096
  }

  ghost predicate CountsOk(counts: map<nat, nat>, typed: seq<UserEvent>) {
    && (forall n :: n in counts ==> n <= SHUTDOWN && counts[n] <= |typed|)
    && (forall m, n :: m in counts && n in counts && m <= n ==> counts[m] <= counts[n])
    && (forall i :: 0 <= i < |typed| ==> WellFormed(typed[i]))
  }

  ghost predicate ServerOk(server: map<nat, seq<UserEvent>>, counts: map<nat, nat>) {
    forall n :: n in server ==> n in counts
  }

  ghost predicate NetOk(net: set<Instruction>, counts: map<nat, nat>, front: nat) {
    forall m :: m in net ==> m.newNum in counts && m.throwawayNum <= front
  }

  ghost predicate AcksOk(acks: set<nat>, server: map<nat, seq<UserEvent>>, counts: map<nat, nat>, front: nat) {
    && front in acks
    && (forall a :: a in acks ==> a in counts)
    && (forall a :: a in acks && a >= front ==> a in server)
  }

  ghost predicate Before(a: SentState, b: SentState) {
    a.num < b.num || (a.num == b.num == SHUTDOWN)
  }

  ghost predicate SentOk(sent: seq<SentState>, counts: map<nat, nat>) {
    && sent != []
    && (forall i :: 0 <= i < |sent| ==> sent[i].num in counts && counts[sent[i].num] == sent[i].events)
    && (forall i, j :: 0 <= i < j < |sent| ==> Before(sent[i], sent[j]))
    && (forall n :: n in counts ==> n <= Last(sent).num)
  }

  ghost predicate TimesOk(sent: seq<SentState>, now: nat) {
    && (forall i :: 0 <= i < |sent| ==> sent[i].timestamp <= now)
    && (forall i, j :: 0 <= i < j < |sent| ==> sent[i].timestamp <= sent[j].timestamp)
  }

  ghost predicate ClientOk(s: Sender, counts: map<nat, nat>, typed: seq<UserEvent>, now: nat) {
    && SentOk(s.sent, counts)
    && TimesOk(s.sent, now)
    && s.eventBase <= s.sent[0].events
    && s.eventBase <= |typed| && s.events == typed[s.eventBase..]
    && (SHUTDOWN in counts ==> s.ending.shutdownInProgress && counts[SHUTDOWN] == |typed|)
  }

  ghost predicate SavedOk(saved: Saved, counts: map<nat, nat>, typed: seq<UserEvent>, front: nat) {
    && SentOk(saved.sent, counts)
    && (forall i :: 0 <= i < |saved.sent| ==> saved.sent[i].timestamp == 0)
    && saved.front == front && Known(saved.sent, front) && front in counts
    && saved.eventBase <= counts[front]
    && saved.eventBase <= |typed| && saved.events == typed[saved.eventBase..]
    && SHUTDOWN !in counts
  }

  ghost predicate DiskOk(w: World) {
    w.disk.Some? ==>
      && SavedOk(Replay(w.disk.value), w.counts, w.typed, w.front)
      && (w.client.Some? ==>
            && !w.client.value.ending.shutdownInProgress
            && w.client.value.book.journaling && w.client.value.book.journaledFront == w.front
            && (forall i :: 0 <= i < |w.client.value.sent| ==>
                  Known(Replay(w.disk.value).sent, w.client.value.sent[i].num)))
  }

  ghost predicate Inv(w: World) {
    && CountsOk(w.counts, w.typed)
    && ServerOk(w.server, w.counts)
    && NetOk(w.net, w.counts, w.front)
    && AcksOk(w.acks, w.server, w.counts, w.front)
    && (w.client.Some? ==> ClientOk(w.client.value, w.counts, w.typed, w.now) && w.front == w.client.value.sent[0].num)
    && DiskOk(w)
  }
}
