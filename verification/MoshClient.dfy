/** The mosh client's sending side in place: the fields, and the methods that update them and the journal. */
module MoshClient {
  import opened MoshTypes
  import opened MoshSender

  class Client {
    var events: seq<UserEvent>
    var eventBase: nat
    var sent: seq<SentState>
    var assumed: nat
    var ackNum: nat
    var timers: Timers
    var ending: Ending
    var book: Book
    /** The journal file, and what else goes into it when it is written anew. */
    var file: seq<Record>
    var rest: Rest
    /** The instructions sent so far. */
    var out: seq<Instruction>

    ghost function State(): Sender
      reads this
    {
      Sender(events, eventBase, sent, assumed, ackNum, timers, ending, book)
    }

    /** The outcome, started from the given file and instructions, is what the fields hold. */
    ghost predicate Holds(o: Outcome, file0: seq<Record>, out0: seq<Instruction>)
      reads this
    {
      && State() == o.sender
      && file == (if book.journaling then FileAfter(file0, o, 3, rest) else file0)
      && out == (if o.out.Some? then out0 + [o.out.value] else out0)
    }

    constructor (now: nat)
      ensures State() == Start(now) && file == [] && out == []
    {
      events, eventBase, sent, assumed, ackNum := [], 0, [SentState(0, 0, now)], 0, 0;
      timers, ending := Timers(now, now, NEVER, now, false), Ending(false, 0, 0, 0, false);
      book := Book(false, 0, 0, 0);
      file, rest, out := [], Rest([], []), [];
    }

    method Journal(record: Record)
      modifies this`file
      ensures Holds(Recorded(State(), record), old(file), out)
    {
      if book.journaling {
        file := file + [record];
      }
    }

    method JournalEvents()
      modifies this`file
      ensures file == old(file) + TypedRecords(events, eventBase)
    {
      for i := 0 to |events|
        invariant file == old(file) + TypedRecords(events, eventBase)[..i]
      {
        file := file + [Typed(eventBase + i, events[i])];
      }
    }

    method JournalSentStates()
      modifies this`file
      ensures file == old(file) + SentRecords(sent)
    {
      for i := 0 to |sent|
        invariant file == old(file) + SentRecords(sent)[..i]
      {
        file := file + [Sent(sent[i].num, sent[i].events)];
      }
    }

    method RewriteJournal()
      modifies this`file, this`book
      ensures State() == if book.journaling then Reserve(old(State())) else old(State())
      ensures file == if book.journaling then RewriteRecords(State(), rest) else old(file)
    {
      if !book.journaling {
        return;
      }
      book := book.(stateReserved := Max(book.stateReserved,
                                         Wrap((if sent == [] then 0 else Last(sent).num) + STATE_BLOCK)));
      book := book.(journaledFront := if sent == [] then book.journaledFront else sent[0].num);
      file := rest.head + [StateReserved(book.stateReserved), Front(book.journaledFront)] + rest.screens
              + [Base(eventBase)];
      JournalEvents();
      JournalSentStates();
    }

    method Write(keys: Bytes)
      requires sent != []
      modifies this`events, this`file
      ensures Holds(Type(old(State()), keys), old(file), old(out))
    {
      if ending.shutdownInProgress || keys == [] {
        return;
      }
      if events != [] && Last(events).columns == 0 && eventBase + |events| > Last(sent).events {
        events := events[|events| - 1 := Last(events).(keys := Last(events).keys + keys)];
        Journal(Typed(eventBase + |events| - 1, UserEvent(keys, 0, 0)));
        return;
      }
      events := events + [UserEvent(keys, 0, 0)];
      Journal(Typed(eventBase + |events| - 1, Last(events)));
    }

    method ResizeTo(columns: nat, rows: nat)
      modifies this`events, this`file
      ensures Holds(Resize(old(State()), columns, rows), old(file), old(out))
    {
      if ending.shutdownInProgress || columns == 0 || rows == 0 {
        return;
      }
      events := events + [UserEvent([], columns, rows)];
      Journal(Typed(eventBase + |events| - 1, Last(events)));
    }

    method DiffFrom(from: nat) returns (diff: seq<UserEvent>)
      ensures diff == UserDiff(State(), from)
    {
      diff := [];
      var i := Max(from, eventBase) - eventBase;
      ghost var start := i;
      while i < |events|
        invariant start <= i && diff == if start < |events| then events[start..Min(i, |events|)] else []
      {
        diff := diff + [events[i]];
        i := i + 1;
      }
    }

    method UpdateAssumedReceiverState(t: Timing)
      requires sent != []
      modifies this`assumed
      ensures assumed == Assumed(sent, t)
    {
      assumed := 0;
      for i := 1 to |sent|
        invariant assumed == i - 1
        invariant AssumedFrom(sent, 1, t) == AssumedFrom(sent, i, t)
      {
        if t.LoopTime(i) >= sent[i].timestamp + t.timeout + ACK_DELAY {
          return;
        }
        assumed := i;
      }
    }

    method DropServedEvents()
      requires sent != []
      modifies this`events, this`eventBase
      ensures State() == DropServed(old(State()))
    {
      hide DropServed;
      ghost var s := State();
      while eventBase < sent[0].events && events != []
        invariant State() == s.(events := events, eventBase := eventBase)
        invariant DropServed(State()) == DropServed(s)
        decreases |events|
      {
        DropOne(State());
        events := events[1..];
        eventBase := eventBase + 1;
      }
      DropNone(State());
    }

    method RefreshTimers(t: Timing)
      requires sent != []
      modifies this`assumed, this`events, this`eventBase, this`timers
      ensures State() == CalculateTimers(old(State()), t) && assumed < |sent|
    {
      hide Assumed, DropServed;
      UpdateAssumedReceiverState(t);
      DropServedEvents();
      ghost var s := State();
      var last := Last(sent);
      var total := eventBase + |events|;
      var time := t.now;
      var next := timers;
      if next.pendingDataAck && next.nextAckTime > time + ACK_DELAY {
        next := next.(nextAckTime := time + ACK_DELAY);
      }
      if total != last.events {
        if next.mindelayClock == NEVER {
          next := next.(mindelayClock := time);
        }
        next := next.(nextSendTime := Max(next.mindelayClock + SEND_MINDELAY, last.timestamp + t.interval));
      } else if total != sent[assumed].events && next.lastHeard + ACTIVE_RETRY_TIMEOUT > time {
        next := next.(nextSendTime := last.timestamp + t.interval);
        if next.mindelayClock != NEVER {
          next := next.(nextSendTime := Max(next.nextSendTime, next.mindelayClock + SEND_MINDELAY));
        }
      } else if total != sent[0].events && next.lastHeard + ACTIVE_RETRY_TIMEOUT > time {
        next := next.(nextSendTime := last.timestamp + t.timeout + ACK_DELAY);
      } else {
        next := next.(nextSendTime := NEVER);
      }
      if ending.shutdownInProgress || ackNum == SHUTDOWN {
        next := next.(nextAckTime := last.timestamp + t.interval);
      }
      timers := next;
      assert timers.nextSendTime == SendDeadline(s, t) && timers.nextAckTime == AckDeadline(s, t);
    }

    method AppendSentState(now: nat, num: nat, total: nat)
      modifies this`file, this`book, this`sent
      ensures Holds(AddSentState(old(State()), now, num, total), old(file), old(out))
    {
      hide RewriteRecords;
      if book.journaling && num != SHUTDOWN && num >= book.stateReserved {
        RewriteJournal();
      }
      Journal(Sent(num, total));
      sent := sent + [SentState(num, total, now)];
      if |sent| > MAX_SENT_STATES {
        sent := RemoveAt(sent, |sent| - 16);
      }
    }

    method Instruct(diff: seq<UserEvent>, newNum: nat, rewrite: bool)
      requires assumed < |sent|
      modifies this`file, this`book, this`out, this`ending, this`timers
      ensures Holds(SendInstruction(old(State()), diff, newNum, rewrite), old(file), old(out))
    {
      hide RewriteRecords;
      var instruction := Instruction(sent[assumed].num, newNum, ackNum, sent[0].num, diff);
      if newNum == SHUTDOWN {
        ending := ending.(shutdownTries := ending.shutdownTries + 1);
      }
      if rewrite {
        RewriteJournal();
      }
      out := out + [instruction];
      ending := ending.(lastAckSent := ackNum);
      timers := timers.(pendingDataAck := false);
    }

    method EmptyAck(now: nat, rewrite: bool)
      requires assumed < |sent|
      modifies this
      ensures Holds(SendEmptyAck(old(State()), now, rewrite), old(file), old(out)) && rest == old(rest)
    {
      hide FileAfter, AddSentState, SendInstruction;
      var num := if ending.shutdownInProgress then SHUTDOWN else Max(Wrap(Last(sent).num + 1), book.stateFloor);
      ghost var a := AddSentState(State(), now, num, eventBase + |events|);
      AppendSentState(now, num, eventBase + |events|);
      ghost var b := SendInstruction(State(), [], num, rewrite);
      Instruct([], num, rewrite);
      FilesCompose(old(file), a, b, SendEmptyAck(old(State()), now, rewrite), rest);
      timers := timers.(nextAckTime := now + ACK_INTERVAL);
      timers := timers.(nextSendTime := NEVER);
      timers := timers.(mindelayClock := NEVER);
    }

    method Mark(now: nat, num: nat)
      requires sent != []
      modifies this`file, this`book, this`sent
      ensures Holds(MarkSent(old(State()), now, num), old(file), old(out))
    {
      hide AddSentState;
      if num == Last(sent).num {
        sent := sent[|sent| - 1 := Last(sent).(timestamp := now)];
      } else {
        AppendSentState(now, num, eventBase + |events|);
      }
    }

    method ToReceiver(diff: seq<UserEvent>, now: nat, after: nat, rewrite: bool)
      requires assumed < |sent|
      modifies this
      ensures Holds(SendToReceiver(old(State()), diff, now, after, rewrite), old(file), old(out)) && rest == old(rest)
    {
      hide FileAfter, MarkSent, SendInstruction;
      var total := eventBase + |events|;
      var num := if total == Last(sent).events then Last(sent).num else Max(Wrap(Last(sent).num + 1), book.stateFloor);
      if ending.shutdownInProgress {
        num := SHUTDOWN;
      }
      ghost var a := MarkSent(State(), now, num);
      Mark(now, num);
      ghost var b := SendInstruction(State(), diff, num, rewrite);
      Instruct(diff, num, rewrite);
      FilesCompose(old(file), a, b, SendToReceiver(old(State()), diff, now, after, rewrite), rest);
      assumed := |sent| - 1;
      timers := timers.(nextAckTime := after + ACK_INTERVAL, nextSendTime := NEVER, mindelayClock := NEVER);
    }

    method SendWhatIsDue(t: Timing, rewrite: bool)
      requires assumed < |sent| && t.check < NEVER
      modifies this
      ensures Holds(TickSends(old(State()), t, rewrite), old(file), old(out)) && rest == old(rest)
      ensures sent != []
    {
      hide RewriteRecords, SendEmptyAck, SendToReceiver, UserDiff;
      if t.check >= timers.nextAckTime || t.check >= timers.nextSendTime {
        if eventBase + |events| == sent[assumed].events {
          if t.check >= timers.nextAckTime {
            EmptyAck(t.mark, rewrite);
          }
          if t.check >= timers.nextSendTime {
            timers := timers.(nextSendTime := NEVER, mindelayClock := NEVER);
          }
        } else {
          var diff := DiffFrom(sent[assumed].events);
          ToReceiver(diff, t.mark, t.after, rewrite);
        }
      }
    }

    method TickAt(t: Timing, rewrite: bool)
      requires sent != [] && t.check < NEVER
      modifies this
      ensures Holds(Tick(old(State()), t, rewrite), old(file), old(out)) && rest == old(rest)
    {
      hide RewriteRecords, CalculateTimers, TickSends;
      if ending.finished {
        return;
      }
      RefreshTimers(t);
      SendWhatIsDue(t, rewrite);
      if ending.shutdownInProgress && (sent[0].num == SHUTDOWN || ending.shutdownTries >= SHUTDOWN_RETRIES
                                       || t.end >= ending.shutdownStart + ACTIVE_RETRY_TIMEOUT) {
        ending := ending.(finished := true);
      }
      if ending.lastAckSent == SHUTDOWN {
        ending := ending.(finished := true);
      }
    }

    method Acknowledge(num: nat)
      requires sent != []
      modifies this`sent, this`book, this`file
      ensures Holds(ProcessAcknowledgment(old(State()), num), old(file), old(out))
    {
      var known := false;
      for i := 0 to |sent|
        invariant known <==> exists j :: 0 <= j < i && sent[j].num == num
      {
        known := known || sent[i].num == num;
      }
      if !known {
        return;
      }
      while sent != [] && sent[0].num < num
        invariant State() == old(State()).(sent := sent) && file == old(file)
        invariant DropBelow(sent, num) == DropBelow(old(sent), num)
        decreases |sent|
      {
        sent := sent[1..];
      }
      if book.journaling && sent != [] && sent[0].num != book.journaledFront {
        book := book.(journaledFront := sent[0].num);
        Journal(Front(book.journaledFront));
      }
    }

    /** waitTime(), which brings the deadlines up to date. */
    method Wait(t: Timing) returns (ms: nat)
      requires sent != []
      modifies this`assumed, this`events, this`eventBase, this`timers
      ensures ms == WaitTime(old(State()), t)
      ensures State() == Waited(old(State()), t)
    {
      if ending.finished {
        return INT_MAX;
      }
      RefreshTimers(t);
      var next := Min(timers.nextAckTime, timers.nextSendTime);
      ms := if next > t.check then Min(next - t.check, INT_MAX) else 0;
    }

    method BeginShutdown(now: nat)
      modifies this`ending
      ensures State() == Shutdown(old(State()), now)
    {
      if ending.shutdownInProgress || ending.finished {
        return;
      }
      ending := ending.(shutdownInProgress := true, shutdownStart := now);
    }

    /** setJournal(): the file is begun anew. */
    method OpenJournal()
      modifies this`file, this`book
      ensures State() == Reserve(old(State()).(book := old(book).(journaling := true)))
      ensures file == RewriteRecords(State(), rest)
    {
      book := book.(journaling := true);
      file := [];
      RewriteJournal();
    }

    /** resume() after the journal was read: the sending side goes on from the front the server is sure to have. */
    method Resume(saved: Saved, latest: nat, now: nat)
      modifies this`events, this`eventBase, this`sent, this`assumed, this`ackNum, this`timers, this`ending, this`book,
               this`file
      ensures State() == Reserve(Restore(saved, latest, now)) && file == RewriteRecords(State(), rest)
    {
      events, eventBase, sent, assumed := saved.events, saved.eventBase, saved.sent, 0;
      while sent != [] && sent[0].num < saved.front
        invariant events == saved.events && eventBase == saved.eventBase && assumed == 0
        invariant DropBelow(sent, saved.front) == DropBelow(saved.sent, saved.front)
        decreases |sent|
      {
        sent := sent[1..];
      }
      assert sent == DropBelow(saved.sent, saved.front);
      if sent == [] || sent[0].num != saved.front {
        sent := [SentState(saved.front, saved.eventBase, 0)] + sent;
      }
      ackNum := latest;
      timers, ending := Timers(now, now, NEVER, now, false), Ending(false, 0, 0, 0, false);
      book := Book(false, saved.front, saved.stateReserved, saved.stateReserved);
      assert State().(book := book.(journaling := true)) == Restore(saved, latest, now);
      OpenJournal();
    }
  }
}
