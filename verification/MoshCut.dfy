/** What a restart goes on from when rewriting the journal was cut short after any of its records. */
module MoshCut {
  import opened MoshTypes
  import opened MoshSender
  import opened MoshSession
  import opened MoshSafety
  import J = MoshJournal
  import R = MoshScreens

  /** What rewriteJournal writes, the records that are not the sender's among it. */
  function Rewritten(s: Sender, rest: Rest): (file: seq<Record>)
    ensures |file| == BaseAt(rest) + 1 + |s.events| + |s.sent|
  {
    RewriteRecords(Reserve(s), rest)
  }

  /** Where the record of the first event's index is. */
  function BaseAt(rest: Rest): nat { |rest.head| + 2 + |rest.screens| }

  /** A sender whose journal can be read back. */
  ghost predicate Journaled(s: Sender) {
    && s.sent != []
    && (forall i :: 0 <= i < |s.events| ==> WellFormed(s.events[i]))
    && (forall i, j :: 0 <= i < j < |s.sent| ==> s.sent[i].num < s.sent[j].num)
    && (forall i :: 0 <= i < |s.sent| ==> s.eventBase <= s.sent[i].events <= s.Total())
  }

  // --- The records of the sender ---

  lemma CutBeforeBase(s: Sender, rest: Rest, k: nat)
    requires Others(rest) && s.sent != [] && |rest.head| + 2 <= k <= BaseAt(rest)
    ensures Replay(Rewritten(s, rest)[..k]) == Saved(Reserve(s).book.stateReserved, s.sent[0].num, 0, [], [])
  {
    hide Wrap, Replay;
    var r := Reserve(s);
    var i := k - |rest.head| - 2;
    HeadCut(s, rest, i);
    ReplayHeadCut(r.book.stateReserved, r.book.journaledFront, rest, i);
  }

  lemma HeadCut(s: Sender, rest: Rest, i: nat)
    requires i <= |rest.screens|
    ensures Rewritten(s, rest)[..|rest.head| + 2 + i]
         == rest.head + [StateReserved(Reserve(s).book.stateReserved)] + [Front(Reserve(s).book.journaledFront)]
            + rest.screens[..i]
  {
    hide Wrap;
  }

  lemma ReplayHeadCut(reserved: nat, front: nat, rest: Rest, i: nat)
    requires Others(rest) && i <= |rest.screens|
    ensures Replay(rest.head + [StateReserved(reserved)] + [Front(front)] + rest.screens[..i])
         == Saved(reserved, front, 0, [], [])
  {
    assert [] + rest.head == rest.head;
    ReplayOthers([], rest.head);
    ReplayAppend(rest.head, StateReserved(reserved));
    ReplayAppend(rest.head + [StateReserved(reserved)], Front(front));
    ReplayOthers(rest.head + [StateReserved(reserved)] + [Front(front)], rest.screens[..i]);
  }

  lemma CutInEvents(s: Sender, rest: Rest, i: nat)
    requires Others(rest) && Journaled(s) && i <= |s.events|
    ensures Replay(Rewritten(s, rest)[..BaseAt(rest) + 1 + i])
         == Saved(Reserve(s).book.stateReserved, s.sent[0].num, s.eventBase, s.events[..i], [])
  {
    hide Wrap, Replay;
    var r := Reserve(s);
    var head := RewriteHead(r.book.stateReserved, r.book.journaledFront, s.eventBase, rest);
    ReplayHead(r.book.stateReserved, r.book.journaledFront, s.eventBase, rest);
    ReplayTyped(head, s.events[..i], s.eventBase);
    EventsCut(head, s, i);
  }

  lemma EventsCut(head: seq<Record>, s: Sender, i: nat)
    requires i <= |s.events|
    ensures (head + TypedRecords(s.events, s.eventBase) + SentRecords(s.sent))[..|head| + i]
         == head + TypedRecords(s.events[..i], s.eventBase)
  {
  }

  lemma SentCut(head: seq<Record>, s: Sender, j: nat)
    requires j <= |s.sent|
    ensures (head + TypedRecords(s.events, s.eventBase) + SentRecords(s.sent))[..|head| + |s.events| + j]
         == head + TypedRecords(s.events, s.eventBase) + SentRecords(s.sent[..j])
  {
  }

  lemma CutInSent(s: Sender, rest: Rest, j: nat)
    requires Others(rest) && Journaled(s) && j <= |s.sent|
    ensures Replay(Rewritten(s, rest)[..BaseAt(rest) + 1 + |s.events| + j])
         == Saved(Reserve(s).book.stateReserved, s.sent[0].num, s.eventBase, s.events, Timeless(s.sent)[..j])
  {
    hide Wrap, Replay, Timeless;
    var r := Reserve(s);
    var head := RewriteHead(r.book.stateReserved, r.book.journaledFront, s.eventBase, rest);
    ReplayHead(r.book.stateReserved, r.book.journaledFront, s.eventBase, rest);
    ReplayTyped(head, s.events, s.eventBase);
    SomeSent(head + TypedRecords(s.events, s.eventBase), s, j);
    SentCut(head, s, j);
  }

  lemma SomeSent(file: seq<Record>, s: Sender, j: nat)
    requires Journaled(s) && j <= |s.sent|
    requires Replay(file).sent == [] && Replay(file).front == s.sent[0].num
    requires Replay(file).eventBase == s.eventBase && Replay(file).events == s.events
    ensures Replay(file + SentRecords(s.sent[..j])) == Replay(file).(sent := Timeless(s.sent)[..j])
  {
    hide Replay;
    FrontIsLeast(s, j);
    ReplaySent(file, s.sent[..j]);
    assert Timeless(s.sent[..j]) == Timeless(s.sent)[..j];
  }

  lemma FrontIsLeast(s: Sender, j: nat)
    requires Journaled(s) && j <= |s.sent|
    ensures forall i :: 0 <= i < j ==> s.sent[i].num >= s.sent[0].num
  {
  }

  // --- What the session is then ---

  /** All typing from the base on. */
  predicate KeepsTyping(s: Sender, r: Sender) { r.eventBase == s.eventBase && r.events == s.events }

  /** Each state stands for what it was sent with. */
  predicate KeepsCounts(s: Sender, r: Sender) {
    forall i :: 0 <= i < |r.sent| ==> Stands(s.sent, r.sent[i].num, r.sent[i].events)
  }

  predicate Stands(sent: seq<SentState>, num: nat, events: nat) {
    exists j :: 0 <= j < |sent| && sent[j].num == num && sent[j].events == events
  }

  lemma FirstStands(s: Sender, events: nat)
    requires Journaled(s)
    ensures Stands(s.sent, s.sent[0].num, events) <==> events == s.sent[0].events
  {
    assert s.sent[0].num == s.sent[0].num;
  }

  /** A restart from a rewrite cut after any record from the front on keeps all typing if and only if the cut is behind
    * the last event, and true counts if and only if it is behind the first state sent or the state made up in place of
    * that happens to be right. */
  lemma CutRewriteExactly(s: Sender, rest: Rest, k: nat, latest: nat, now: nat)
    requires Others(rest) && Journaled(s) && |rest.head| + 2 <= k <= |Rewritten(s, rest)|
    ensures var r, base := Restore(Replay(Rewritten(s, rest)[..k]), latest, now), BaseAt(rest);
      && r.sent != [] && r.sent[0].num == s.sent[0].num
      && (KeepsTyping(s, r) <==> k > base + |s.events| || (s.events == [] && s.eventBase == 0))
      && (KeepsCounts(s, r) <==>
            || k > base + 1 + |s.events|
            || s.sent[0].events == if k > base then s.eventBase else 0)
  {
    hide Replay, Rewritten;
    var base := BaseAt(rest);
    var saved := Replay(Rewritten(s, rest)[..k]);
    var r := Restore(saved, latest, now);
    if k <= base {
      CutBeforeBase(s, rest, k);
      FirstStands(s, 0);
    } else if k <= base + 1 + |s.events| {
      CutInEvents(s, rest, k - base - 1);
      FirstStands(s, s.eventBase);
      if k <= base + |s.events| {
        assert |s.events[..k - base - 1]| < |s.events|;
      }
    } else {
      var j := k - base - 1 - |s.events|;
      CutInSent(s, rest, j);
      TimelessStands(s, j);
      hide Timeless;
      assert DropBelow(saved.sent, saved.front) == saved.sent;
    }
  }

  lemma TimelessStands(s: Sender, j: nat)
    requires Journaled(s) && 0 < j <= |s.sent|
    ensures var sent := Timeless(s.sent)[..j];
      && |sent| == j && sent[0].num == s.sent[0].num
      && forall i :: 0 <= i < j ==> Stands(s.sent, sent[i].num, sent[i].events)
  {
    var sent := Timeless(s.sent)[..j];
    forall i | 0 <= i < j ensures Stands(s.sent, sent[i].num, sent[i].events) {
      assert s.sent[i].num == sent[i].num && s.sent[i].events == sent[i].events;
    }
  }

  // --- Whether it is read at all ---

  lemma ScreensCut(states: map<nat, ReceivedState>, nums: seq<nat>, i: nat)
    requires (forall n :: n in nums ==> n in states) && i <= |nums|
    ensures J.ScreenRecords(states, nums)[..i] == J.ScreenRecords(states, nums[..i])
  {
  }

  /** The screens and the newest of them that a cut leaves. */
  lemma ScreensLeft(s: Sender, address: Bytes, note: Bytes, seqReserved: nat, saved: R.Saved, nums: seq<nat>, k: nat)
    requires J.Lists(saved.states, nums) && 5 <= k <= 5 + |nums|
    ensures var j := J.ApplyAll(Rewritten(s, J.RestOf(address, note, seqReserved, saved, nums))[..k]);
      && j.address == Some(address) && j.seqReserved == seqReserved
      && j.screens.latest == 0 && (forall n :: n in j.screens.states <==> n in nums[..k - 5])
  {
    var rest, r := J.RestOf(address, note, seqReserved, saved, nums), Reserve(s);
    var head := J.Head(address, note, seqReserved);
    var reserved := [StateReserved(r.book.stateReserved), Front(r.book.journaledFront)];
    J.HeadReadsBack(address, note, seqReserved);
    hide J.ApplyAll, J.Head, J.ScreenRecords, TypedRecords, SentRecords, Reserve;
    J.ApplySenderRecords(head, reserved);
    ScreensCut(saved.states, nums, k - 5);
    assert Rewritten(s, rest)[..k] == head + reserved + J.ScreenRecords(saved.states, nums)[..k - 5] by {
      CutOfThree(head + reserved, J.ScreenRecords(saved.states, nums),
                 [Latest(saved.latest)] + [Base(s.eventBase)] + TypedRecords(s.events, s.eventBase) + SentRecords(s.sent), k);
      WrittenParts(head, reserved, J.ScreenRecords(saved.states, nums), Latest(saved.latest), Base(s.eventBase),
                   TypedRecords(s.events, s.eventBase), SentRecords(s.sent));
    }
    J.ApplyScreens(head + reserved, saved.states, nums[..k - 5]);
  }

  lemma CutOfThree(a: seq<Record>, b: seq<Record>, c: seq<Record>, k: nat)
    requires |a| <= k <= |a| + |b|
    ensures (a + b + c)[..k] == a + b[..k - |a|]
  {
  }

  lemma WrittenParts(a: seq<Record>, b: seq<Record>, c: seq<Record>, l: Record, base: Record, e: seq<Record>, t: seq<Record>)
    ensures a + b + (c + [l]) + [base] + e + t == a + b + c + ([l] + [base] + e + t)
  {
  }

  /** From the record of the newest screen on, the screens are whole. */
  lemma ScreensWhole(s: Sender, address: Bytes, note: Bytes, seqReserved: nat, saved: R.Saved, nums: seq<nat>, k: nat)
    requires J.Lists(saved.states, nums)
    requires 6 + |nums| <= k <= |Rewritten(s, J.RestOf(address, note, seqReserved, saved, nums))|
    ensures var j := J.ApplyAll(Rewritten(s, J.RestOf(address, note, seqReserved, saved, nums))[..k]);
      && j.address == Some(address) && j.seqReserved == seqReserved && j.screens == saved
  {
    hide J.ApplyAll, Reserve;
    var rest := J.RestOf(address, note, seqReserved, saved, nums);
    var file := Rewritten(s, rest);
    J.RewrittenReadsBack(Reserve(s), address, note, seqReserved, saved, nums);
    SenderTail(s, rest, k);
    hide J.RestOf, Rewritten, RewriteRecords;
    J.ApplySenderRecords(file[..k], file[k..]);
    assert file[..k] + file[k..] == file;
  }

  lemma SenderTail(s: Sender, rest: Rest, k: nat)
    requires BaseAt(rest) <= k <= |Rewritten(s, rest)|
    ensures var more := Rewritten(s, rest)[k..];
      forall i :: 0 <= i < |more| ==> more[i].StateReserved? || more[i].Front? || more[i].Base? || more[i].Typed? || more[i].Sent?
  {
  }

  lemma TooShort(s: Sender, address: Bytes, note: Bytes, seqReserved: nat, saved: R.Saved, nums: seq<nat>, k: nat)
    requires J.Lists(saved.states, nums) && k < 5
    ensures var j := J.ApplyAll(Rewritten(s, J.RestOf(address, note, seqReserved, saved, nums))[..k]);
      j.screens.states == map[]
  {
    var rest, r := J.RestOf(address, note, seqReserved, saved, nums), Reserve(s);
    var five := J.Head(address, note, seqReserved)
                + [StateReserved(r.book.stateReserved), Front(r.book.journaledFront)];
    assert Rewritten(s, rest)[..k] == five[..k];
    hide Rewritten, Reserve;
    NoScreens(five[..k]);
  }

  lemma {:induction false} NoScreens(rs: seq<Record>)
    requires forall i :: 0 <= i < |rs| ==> !rs[i].Screen?
    ensures J.ApplyAll(rs).screens.states == map[]
  {
    if rs != [] {
      NoScreens(rs[..|rs| - 1]);
    }
  }

  lemma ReservedLeft(s: Sender, rest: Rest, k: nat)
    requires Others(rest) && Journaled(s) && |rest.head| + 2 <= k <= |Rewritten(s, rest)|
    ensures J.ApplyAll(Rewritten(s, rest)[..k]).sender.stateReserved == Reserve(s).book.stateReserved
  {
    hide Rewritten, Replay, J.ApplyAll, Reserve;
    J.SenderIsReplay(Rewritten(s, rest)[..k]);
    var base := BaseAt(rest);
    if k <= base {
      CutBeforeBase(s, rest, k);
    } else if k <= base + 1 + |s.events| {
      CutInEvents(s, rest, k - base - 1);
    } else {
      CutInSent(s, rest, k - base - 1 - |s.events|);
    }
  }

  lemma RestIsOthers(address: Bytes, note: Bytes, seqReserved: nat, saved: R.Saved, nums: seq<nat>)
    requires J.Lists(saved.states, nums)
    ensures var rest := J.RestOf(address, note, seqReserved, saved, nums);
      Others(rest) && |rest.head| == 3 && |rest.screens| == |nums| + 1 && BaseAt(rest) == |nums| + 6
  {
  }

  /** The cut rewrite is read if and only if it goes on to the newest screen's record, or already to a screen with
    * number 0, which is taken for the newest without that record. */
  lemma CutIsReadExactly(s: Sender, address: Bytes, note: Bytes, seqReserved: nat, saved: R.Saved, nums: seq<nat>, k: nat)
    requires Journaled(s) && J.Lists(saved.states, nums) && saved.latest in saved.states && seqReserved > 0
    requires k <= |Rewritten(s, J.RestOf(address, note, seqReserved, saved, nums))|
    ensures J.Usable(J.ApplyAll(Rewritten(s, J.RestOf(address, note, seqReserved, saved, nums))[..k]))
       <==> (k >= 6 + |nums| || (k > 5 && 0 in nums[..k - 5])) && Reserve(s).book.stateReserved > 0
  {
    RestIsOthers(address, note, seqReserved, saved, nums);
    hide Rewritten, J.ApplyAll, J.RestOf, Reserve;
    if k < 5 {
      TooShort(s, address, note, seqReserved, saved, nums, k);
    } else {
      ReservedLeft(s, J.RestOf(address, note, seqReserved, saved, nums), k);
      if k < 6 + |nums| {
        ScreensLeft(s, address, note, seqReserved, saved, nums, k);
      } else {
        ScreensWhole(s, address, note, seqReserved, saved, nums, k);
      }
    }
  }

  /** So for every client that holds events the server may not have there is a cut that is read and forgets them all. */
  lemma CutForgetsTyping(s: Sender, address: Bytes, note: Bytes, seqReserved: nat, saved: R.Saved, nums: seq<nat>,
                         latest: nat, now: nat) returns (k: nat)
    requires Journaled(s) && s.events != [] && Reserve(s).book.stateReserved > 0
    requires J.Lists(saved.states, nums) && saved.latest in saved.states && seqReserved > 0
    ensures k < |Rewritten(s, J.RestOf(address, note, seqReserved, saved, nums))|
    ensures var cut := Rewritten(s, J.RestOf(address, note, seqReserved, saved, nums))[..k];
      && J.Usable(J.ApplyAll(cut)) && Restore(Replay(cut), latest, now).events == []
  {
    var rest := J.RestOf(address, note, seqReserved, saved, nums);
    RestIsOthers(address, note, seqReserved, saved, nums);
    k := 6 + |nums|;
    hide J.RestOf, Reserve;
    CutIsReadExactly(s, address, note, seqReserved, saved, nums, k);
    CutBeforeBase(s, rest, k);
    hide Rewritten, Replay;
  }

  /** And there are such clients: one that has just started, with a key typed. */
  lemma CutForgetsAKey(key: Byte) returns (s: Sender, cut: seq<Record>)
    ensures s == Start(0).(events := [UserEvent([key], 0, 0)]) && cut < Rewritten(s, J.RestOf([1], [], 1, R.Saved(
              map[0 := ReceivedState(0, NO_PARENT, [], 80, 24, 0)], 0), [0]))
    ensures J.Usable(J.ApplyAll(cut)) && Restore(Replay(cut), 0, 0).events == []
  {
    s := Start(0).(events := [UserEvent([key], 0, 0)]);
    var saved := R.Saved(map[0 := ReceivedState(0, NO_PARENT, [], 80, 24, 0)], 0);
    assert Journaled(s) && Reserve(s).book.stateReserved > 0;
    var k := CutForgetsTyping(s, [1], [], 1, saved, [0], 0, 0);
    cut := Rewritten(s, J.RestOf([1], [], 1, saved, [0]))[..k];
  }
}
