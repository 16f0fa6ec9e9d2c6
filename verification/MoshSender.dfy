/** The sending side of the mosh client: typed events, the numbered states sent of them, timers and
  * the journal records that let a restart go on. Each operation is a function from state to
  * outcome; class Client holds the fields the operations update in place. */
module MoshSender {
  import opened MoshTypes

  const ACK_INTERVAL: nat := 3000
  const ACK_DELAY: nat := 100
  const SEND_MINDELAY: nat := 1
  const ACTIVE_RETRY_TIMEOUT: nat := 10000
  const SHUTDOWN_RETRIES: nat := 16
  const MAX_SENT_STATES: nat := 32
  const STATE_BLOCK: nat := 65536
  const INT_MAX: nat := 0x7fff_ffff

  /** Deadlines and what they are set from. */
  datatype Timers = Timers(
    nextAckTime: nat, nextSendTime: nat, mindelayClock: nat, lastHeard: nat, pendingDataAck: bool)

  datatype Ending = Ending(
    shutdownInProgress: bool, shutdownTries: nat, shutdownStart: nat, lastAckSent: nat, finished: bool)

  /** What the journal is known to hold. */
  datatype Book = Book(journaling: bool, journaledFront: nat, stateReserved: nat, stateFloor: nat)

  datatype Sender = Sender(
    events: seq<UserEvent>, eventBase: nat, sent: seq<SentState>, assumed: nat, ackNum: nat,
    timers: Timers, ending: Ending, book: Book)
  {
    function Total(): nat { eventBase + |events| }
  }

  /** The readings of the clock in one tick, in the order they are taken: one for each state sent that the loop of
    * updateAssumedReceiverState looks at (by its index), for the deadlines, for what is due, for the new state's time,
    * for the next acknowledgment and for the end of the session; with timeout() and sendInterval() as the round trips
    * seen so far make them. */
  datatype Timing = Timing(loop: seq<nat>, now: nat, check: nat, mark: nat, after: nat, end: nat, timeout: nat,
                           interval: nat)
  {
    /** When the i-th state is looked at. */
    function LoopTime(i: nat): nat { if i < |loop| then loop[i] else now }

    function First(): nat { LoopTime(0) }

    /** A clock does not go back. */
    predicate Rising() {
      && (forall i, j :: 0 <= i <= j < |loop| ==> loop[i] <= loop[j])
      && (forall i :: 0 <= i < |loop| ==> loop[i] <= now)
      && now <= check <= mark <= after <= end
    }

    /** All readings are the same. */
    predicate Still() {
      && (forall i :: 0 <= i < |loop| ==> loop[i] == now)
      && now == check == mark == after == end
    }
  }

  function At(now: nat, timeout: nat, interval: nat): (t: Timing)
    ensures t.Still() && t.Rising()
  {
    Timing([], now, now, now, now, now, timeout, interval)
  }

  /** The file's records other than the sender's: address, note and nonces first, screens later on. */
  datatype Rest = Rest(head: seq<Record>, screens: seq<Record>)

  /** What an operation leaves: the state, up to three journal writes in this order (the file written
    * anew with a state, one record, the file written anew), and the instruction sent after them. */
  datatype Outcome = Outcome(sender: Sender, first: Option<Sender>, record: Option<Record>, again: Option<Sender>,
                             out: Option<Instruction>)

  // --- The journal ---

  function TypedRecords(events: seq<UserEvent>, base: nat): seq<Record> {
    seq(|events|, i requires 0 <= i < |events| => Typed(base + i, events[i]))
  }

  function SentRecords(sent: seq<SentState>): seq<Record> {
    seq(|sent|, i requires 0 <= i < |sent| => Sent(sent[i].num, sent[i].events))
  }

  function RewriteHead(reserved: nat, front: nat, base: nat, rest: Rest): seq<Record> {
    rest.head + [StateReserved(reserved), Front(front)] + rest.screens + [Base(base)]
  }

  function RewriteRecords(s: Sender, rest: Rest): seq<Record> {
    RewriteHead(s.book.stateReserved, s.book.journaledFront, s.eventBase, rest)
    + TypedRecords(s.events, s.eventBase) + SentRecords(s.sent)
  }

  /** The file after the first n of the outcome's three writes. */
  function FileAfter(file: seq<Record>, o: Outcome, n: nat, rest: Rest): seq<Record> {
    var f1 := if n >= 1 && o.first.Some? then RewriteRecords(o.first.value, rest) else file;
    var f2 := if n >= 2 && o.record.Some? then f1 + [o.record.value] else f1;
    if n >= 3 && o.again.Some? then RewriteRecords(o.again.value, rest) else f2
  }

  lemma FilesCompose(file: seq<Record>, a: Outcome, b: Outcome, o: Outcome, rest: Rest)
    requires a.again == None && b.first == None && b.record == None
    requires o.first == a.first && o.record == a.record && o.again == b.again
    ensures FileAfter(FileAfter(file, a, 3, rest), b, 3, rest) == FileAfter(file, o, 3, rest)
  {
    hide RewriteRecords;
  }

  function Unwritten(s: Sender): Outcome { Outcome(s, None, None, None, None) }

  function Recorded(s: Sender, r: Record): Outcome { Outcome(s, None, Some(r), None, None) }

  /** What rewriting the journal reserves and takes as the front. */
  function Reserve(s: Sender): Sender {
    s.(book := s.book.(
         stateReserved := Max(s.book.stateReserved, Wrap((if s.sent == [] then 0 else Last(s.sent).num) + STATE_BLOCK)),
         journaledFront := if s.sent == [] then s.book.journaledFront else s.sent[0].num))
  }

  // --- Typing ---

  /** The last event may still grow when no state sent covers it. */
  predicate Growable(s: Sender)
    requires s.sent != []
  {
    s.events != [] && Last(s.events).columns == 0 && s.Total() > Last(s.sent).events
  }

  function Type(s: Sender, keys: Bytes): Outcome
    requires s.sent != []
  {
    if s.ending.shutdownInProgress || keys == [] then
      Unwritten(s)
    else if Growable(s) then
      var last := Last(s.events);
      Recorded(s.(events := s.events[|s.events| - 1 := last.(keys := last.keys + keys)]),
               Typed(s.Total() - 1, UserEvent(keys, 0, 0)))
    else
      Recorded(s.(events := s.events + [UserEvent(keys, 0, 0)]), Typed(s.Total(), UserEvent(keys, 0, 0)))
  }

  function Resize(s: Sender, columns: nat, rows: nat): Outcome {
    if s.ending.shutdownInProgress || columns == 0 || rows == 0 then
      Unwritten(s)
    else
      Recorded(s.(events := s.events + [UserEvent([], columns, rows)]),
               Typed(s.Total(), UserEvent([], columns, rows)))
  }

  function UserDiff(s: Sender, from: nat): seq<UserEvent> {
    var i := Max(from, s.eventBase) - s.eventBase;
    if i < |s.events| then s.events[i..] else []
  }

  // --- Timers ---

  function AssumedFrom(sent: seq<SentState>, i: nat, t: Timing): (k: nat)
    requires 1 <= i <= |sent|
    ensures i - 1 <= k < |sent|
    decreases |sent| - i
  {
    if i == |sent| || t.LoopTime(i) >= sent[i].timestamp + t.timeout + ACK_DELAY then i - 1
    else AssumedFrom(sent, i + 1, t)
  }

  /** States sent recently enough are taken for received. */
  function Assumed(sent: seq<SentState>, t: Timing): (k: nat)
    requires sent != []
    ensures k < |sent|
  {
    AssumedFrom(sent, 1, t)
  }

  /** Events the server has are no longer needed. */
  function DropServed(s: Sender): Sender
    requires s.sent != []
  {
    var n := if s.sent[0].events <= s.eventBase then 0 else Min(s.sent[0].events - s.eventBase, |s.events|);
    s.(events := s.events[n..], eventBase := s.eventBase + n)
  }

  lemma DropOne(s: Sender)
    requires s.sent != [] && s.eventBase < s.sent[0].events && s.events != []
    ensures DropServed(s.(events := s.events[1..], eventBase := s.eventBase + 1)) == DropServed(s)
  {
    var m := Min(s.sent[0].events - s.eventBase, |s.events|) - 1;
    assert s.events[1..][m..] == s.events[m + 1..];
  }

  lemma DropNone(s: Sender)
    requires s.sent != [] && (s.eventBase >= s.sent[0].events || s.events == [])
    ensures DropServed(s) == s
  {
    assert s.events[0..] == s.events;
  }

  function SendDeadline(s: Sender, t: Timing): nat
    requires s.assumed < |s.sent|
  {
    var last := Last(s.sent);
    var heard := s.timers.lastHeard + ACTIVE_RETRY_TIMEOUT > t.now;
    if s.Total() != last.events then
      Max((if s.timers.mindelayClock == NEVER then t.now else s.timers.mindelayClock) + SEND_MINDELAY, last.timestamp + t.interval)
    else if s.Total() != s.sent[s.assumed].events && heard then
      if s.timers.mindelayClock != NEVER then Max(last.timestamp + t.interval, s.timers.mindelayClock + SEND_MINDELAY)
      else last.timestamp + t.interval
    else if s.Total() != s.sent[0].events && heard then
      last.timestamp + t.timeout + ACK_DELAY
    else
      NEVER
  }

  function AckDeadline(s: Sender, t: Timing): nat
    requires s.sent != []
  {
    if s.ending.shutdownInProgress || s.ackNum == SHUTDOWN then Last(s.sent).timestamp + t.interval
    else if s.timers.pendingDataAck && s.timers.nextAckTime > t.now + ACK_DELAY then t.now + ACK_DELAY
    else s.timers.nextAckTime
  }

  function CalculateTimers(s: Sender, t: Timing): (r: Sender)
    requires s.sent != []
    ensures r.sent == s.sent && r.assumed < |r.sent|
  {
    var s1 := DropServed(s.(assumed := Assumed(s.sent, t)));
    s1.(timers := s1.timers.(
          nextAckTime := AckDeadline(s1, t),
          nextSendTime := SendDeadline(s1, t),
          mindelayClock := if s1.Total() != Last(s1.sent).events && s1.timers.mindelayClock == NEVER then t.now
                           else s1.timers.mindelayClock))
  }

  /** When there is next something to do. */
  function Deadline(s: Sender): nat { Min(s.timers.nextAckTime, s.timers.nextSendTime) }

  /** How long there is nothing to do, in what an int holds. */
  function WaitTime(s: Sender, t: Timing): nat
    requires s.sent != []
  {
    if s.ending.finished then INT_MAX
    else
      var next := Deadline(CalculateTimers(s, t));
      if next > t.check then Min(next - t.check, INT_MAX) else 0
  }

  /** What asking for the wait leaves. */
  function Waited(s: Sender, t: Timing): Sender
    requires s.sent != []
  {
    if s.ending.finished then s else CalculateTimers(s, t)
  }

  // --- Sending ---

  function RemoveAt<T>(s: seq<T>, i: nat): seq<T>
    requires i < |s|
  {
    s[..i] + s[i + 1..]
  }

  function Cull(sent: seq<SentState>): seq<SentState> {
    if |sent| > MAX_SENT_STATES then RemoveAt(sent, |sent| - 16) else sent
  }

  function NextNum(s: Sender): nat
    requires s.sent != []
  {
    if s.ending.shutdownInProgress then SHUTDOWN else Max(Wrap(Last(s.sent).num + 1), s.book.stateFloor)
  }

  function AddSentState(s: Sender, now: nat, num: nat, events: nat): (o: Outcome)
    ensures o.again == None && o.out == None
    ensures o.sender.assumed == s.assumed && |o.sender.sent| >= |s.sent|
    ensures o.sender.book.journaling == s.book.journaling
  {
    var full := s.book.journaling && num != SHUTDOWN && num >= s.book.stateReserved;
    var s1 := if full then Reserve(s) else s;
    Outcome(s1.(sent := Cull(s1.sent + [SentState(num, events, now)])),
            if full then Some(s1) else None, Some(Sent(num, events)), None, None)
  }

  /** rewrite says that the packets went past the nonces reserved, which rewrites the journal before one goes out. */
  function SendInstruction(s: Sender, diff: seq<UserEvent>, newNum: nat, rewrite: bool): (o: Outcome)
    requires s.assumed < |s.sent|
    ensures o.first == None && o.record == None && o.sender.sent == s.sent
    ensures o.sender.book.journaling == s.book.journaling
  {
    var again := rewrite && s.book.journaling;
    var tried := s.(ending := s.ending.(shutdownTries := s.ending.shutdownTries + if newNum == SHUTDOWN then 1 else 0));
    var s1 := if again then Reserve(tried) else tried;
    Outcome(s1.(ending := s1.ending.(lastAckSent := s1.ackNum), timers := s1.timers.(pendingDataAck := false)),
            None, None, if again then Some(s1) else None,
            Some(Instruction(s.sent[s.assumed].num, newNum, s.ackNum, s.sent[0].num, diff)))
  }

  /** Both deadlines and the mindelay clock, which tick() clears after either way of sending. */
  function AfterSending(timers: Timers, now: nat): Timers {
    timers.(nextAckTime := now + ACK_INTERVAL, nextSendTime := NEVER, mindelayClock := NEVER)
  }

  function SendEmptyAck(s: Sender, now: nat, rewrite: bool): (o: Outcome)
    requires s.assumed < |s.sent|
    ensures o.sender.timers.nextSendTime == NEVER
    ensures o.sender.sent != [] && o.sender.book.journaling == s.book.journaling
  {
    var num := NextNum(s);
    var added := AddSentState(s, now, num, s.Total());
    var o := SendInstruction(added.sender, [], num, rewrite);
    o.(sender := o.sender.(timers := AfterSending(o.sender.timers, now)),
       first := added.first, record := added.record)
  }

  function DataNum(s: Sender): nat
    requires s.sent != []
  {
    if s.ending.shutdownInProgress then SHUTDOWN
    else if s.Total() == Last(s.sent).events then Last(s.sent).num
    else NextNum(s)
  }

  /** A state sent again only gets a new time. */
  function MarkSent(s: Sender, now: nat, num: nat): (o: Outcome)
    requires s.sent != []
    ensures o.again == None && o.out == None
    ensures o.sender.assumed == s.assumed && |o.sender.sent| >= |s.sent|
    ensures o.sender.book.journaling == s.book.journaling
  {
    if num == Last(s.sent).num then
      Unwritten(s.(sent := s.sent[|s.sent| - 1 := Last(s.sent).(timestamp := now)]))
    else
      AddSentState(s, now, num, s.Total())
  }

  function SendToReceiver(s: Sender, diff: seq<UserEvent>, now: nat, after: nat, rewrite: bool): (o: Outcome)
    requires s.assumed < |s.sent|
    ensures o.sender.sent != [] && o.sender.book.journaling == s.book.journaling
  {
    var num := DataNum(s);
    var added := MarkSent(s, now, num);
    var o := SendInstruction(added.sender, diff, num, rewrite);
    o.(sender := o.sender.(assumed := |o.sender.sent| - 1, timers := AfterSending(o.sender.timers, after)),
       first := added.first, record := added.record)
  }

  function TickSends(s: Sender, t: Timing, rewrite: bool): Outcome
    requires s.assumed < |s.sent|
  {
    if t.check < s.timers.nextAckTime && t.check < s.timers.nextSendTime then
      Unwritten(s)
    else if s.Total() != s.sent[s.assumed].events then
      SendToReceiver(s, UserDiff(s, s.sent[s.assumed].events), t.mark, t.after, rewrite)
    else if t.check >= s.timers.nextAckTime then
      SendEmptyAck(s, t.mark, rewrite)
    else
      Unwritten(s.(timers := s.timers.(nextSendTime := NEVER, mindelayClock := NEVER)))
  }

  predicate Ends(s: Sender, now: nat)
    requires s.sent != []
  {
    || (s.ending.shutdownInProgress
        && (s.sent[0].num == SHUTDOWN || s.ending.shutdownTries >= SHUTDOWN_RETRIES
            || now >= s.ending.shutdownStart + ACTIVE_RETRY_TIMEOUT))
    || s.ending.lastAckSent == SHUTDOWN
  }

  function Tick(s: Sender, t: Timing, rewrite: bool): Outcome
    requires s.sent != []
  {
    if s.ending.finished then Unwritten(s)
    else
      var o := TickSends(CalculateTimers(s, t), t, rewrite);
      o.(sender := o.sender.(ending := o.sender.ending.(finished := o.sender.ending.finished || Ends(o.sender, t.end))))
  }

  function Shutdown(s: Sender, now: nat): Sender {
    if s.ending.shutdownInProgress || s.ending.finished then s
    else s.(ending := s.ending.(shutdownInProgress := true, shutdownStart := now))
  }

  // --- Acknowledgments ---

  predicate Known(sent: seq<SentState>, num: nat) {
    exists i :: 0 <= i < |sent| && sent[i].num == num
  }

  function DropBelow(sent: seq<SentState>, num: nat): seq<SentState> {
    if sent == [] || sent[0].num >= num then sent else DropBelow(sent[1..], num)
  }

  function ProcessAcknowledgment(s: Sender, ackNum: nat): Outcome
    requires s.sent != []
  {
    if !Known(s.sent, ackNum) then Unwritten(s)
    else
      var sent := DropBelow(s.sent, ackNum);
      var s1 := s.(sent := sent);
      if s.book.journaling && sent != [] && sent[0].num != s.book.journaledFront then
        Recorded(s1.(book := s1.book.(journaledFront := sent[0].num)), Front(sent[0].num))
      else
        Unwritten(s1)
  }

  // --- Starting and resuming ---

  function Start(now: nat): Sender {
    Sender([], 0, [SentState(0, 0, now)], 0, 0, Timers(now, now, NEVER, now, false), Ending(false, 0, 0, 0, false),
           Book(false, 0, 0, 0))
  }

  /** What reading the journal gives the sender. */
  datatype Saved = Saved(stateReserved: nat, front: nat, eventBase: nat, events: seq<UserEvent>, sent: seq<SentState>)

  function Restore(saved: Saved, latest: nat, now: nat): Sender {
    var kept := DropBelow(saved.sent, saved.front);
    var sent := if kept == [] || kept[0].num != saved.front
                then [SentState(saved.front, saved.eventBase, 0)] + kept else kept;
    Sender(saved.events, saved.eventBase, sent, 0, latest, Timers(now, now, NEVER, now, false),
           Ending(false, 0, 0, 0, false), Book(true, saved.front, saved.stateReserved, saved.stateReserved))
  }

  function ClampSize(n: nat): nat { Max(1, Min(n, 4096)) }

  function ApplyRecord(s: Saved, r: Record): Saved {
    match r
    case StateReserved(n) => s.(stateReserved := n)
    case Front(n) => s.(front := n)
    case Base(n) => s.(eventBase := n, events := [], sent := [])
    case Typed(index, e) =>
      var i := index - s.eventBase;
      if i < 0 || i > |s.events| then s
      else
        var events := if i == |s.events| then s.events + [UserEvent([], 0, 0)] else s.events;
        if e.columns == 0 then s.(events := events[i := events[i].(keys := events[i].keys + e.keys)])
        else s.(events := events[i := events[i].(columns := ClampSize(e.columns), rows := ClampSize(e.rows))])
    case Sent(num, events) =>
      if num >= s.front && s.eventBase <= events <= s.eventBase + |s.events|
         && (s.sent == [] || num > Last(s.sent).num)
      then s.(sent := s.sent + [SentState(num, events, 0)]) else s
    case _ => s
  }

  const NOTHING_SAVED := Saved(0, 0, 0, [], [])

  function Replay(file: seq<Record>): Saved {
    if file == [] then NOTHING_SAVED else ApplyRecord(Replay(file[..|file| - 1]), Last(file))
  }
}
