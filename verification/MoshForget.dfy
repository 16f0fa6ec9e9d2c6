/** What a session that comes back from a rewrite cut short has forgotten, and what still holds of it. */
module MoshForget {
  import opened MoshTypes
  import opened MoshSender
  import opened MoshSession
  import opened MoshSafety
  import opened MoshTyping
  import opened MoshGuarantees
  import opened MoshCut

  /** The app is killed in the middle of rewriting its journal. */
  predicate Rewriting(w: World, rest: Rest) { Running(w) && w.disk.Some? && Others(rest) }

  /** The records of the rewrite that are whole, from the front's on. */
  predicate IsCut(w: World, rest: Rest, k: nat)
    requires Rewriting(w, rest)
  {
    |rest.head| + 2 <= k <= |Rewritten(w.client.value, rest)|
  }

  /** How many states sent are among them. */
  function StatesKept(w: World, rest: Rest, k: nat): nat
    requires Rewriting(w, rest)
  {
    if k > BaseAt(rest) + 1 + |w.client.value.events| then k - BaseAt(rest) - 1 - |w.client.value.events| else 0
  }

  lemma ClientIsJournaled(s: Sender, counts: map<nat, nat>, typed: seq<UserEvent>, now: nat)
    requires CountsOk(counts, typed) && ClientOk(s, counts, typed, now) && SHUTDOWN !in counts
    ensures Journaled(s)
  {
    forall i | 0 <= i < |s.sent| ensures s.eventBase <= s.sent[i].events <= s.Total() {
      EventsMonotone(s.sent, counts, typed, 0, i);
    }
    forall i, j | 0 <= i < j < |s.sent| ensures s.sent[i].num < s.sent[j].num {
      assert Before(s.sent[i], s.sent[j]) && s.sent[j].num in counts;
    }
  }

  lemma NotEnding(w: World)
    requires Inv(w) && Running(w) && w.disk.Some?
    ensures SHUTDOWN !in w.counts && !w.client.value.ending.shutdownInProgress && Journaled(w.client.value)
    ensures w.front == w.client.value.sent[0].num
  {
    hide Replay, CountsOk, NetOk, ServerOk, AcksOk, ClientOk;
    ClientIsJournaled(w.client.value, w.counts, w.typed, w.now);
  }

  lemma NothingKept(w: World, rest: Rest, k: nat)
    requires Rewriting(w, rest) && IsCut(w, rest, k) && Journaled(w.client.value) && StatesKept(w, rest, k) == 0
    ensures Replay(Rewritten(w.client.value, rest)[..k]).sent == []
  {
    hide Replay, Rewritten;
    var base := BaseAt(rest);
    if k <= base {
      CutBeforeBase(w.client.value, rest, k);
    } else {
      CutInEvents(w.client.value, rest, k - base - 1);
    }
  }

  lemma SomeKept(w: World, rest: Rest, k: nat)
    requires Rewriting(w, rest) && IsCut(w, rest, k) && Journaled(w.client.value) && StatesKept(w, rest, k) > 0
    ensures StatesKept(w, rest, k) <= |w.client.value.sent|
    ensures var s := w.client.value;
      Replay(Rewritten(s, rest)[..k])
      == Saved(Reserve(s).book.stateReserved, s.sent[0].num, s.eventBase, s.events, Timeless(s.sent)[..StatesKept(w, rest, k)])
  {
    hide Replay;
    assert |Rewritten(w.client.value, rest)| == BaseAt(rest) + 1 + |w.client.value.events| + |w.client.value.sent|;
    hide Rewritten;
    CutInSent(w.client.value, rest, StatesKept(w, rest, k));
  }

  // --- Exactly when nothing is lost ---

  /** Any reachable session, killed in the middle of rewriting its journal, goes on where it was if and only if the
    * first state sent was written again. */
  lemma CutGoesOnExactly(w: World, rest: Rest, k: nat, latest: nat, now: nat)
    requires Reachable(w) && Rewriting(w, rest) && IsCut(w, rest, k)
    ensures GoesOn(w, Replay(Rewritten(w.client.value, rest)[..k]), latest, now) <==> StatesKept(w, rest, k) > 0
  {
    ReachableKeeps(w);
    NotEnding(w);
    if StatesKept(w, rest, k) == 0 {
      NothingKept(w, rest, k);
    } else {
      SomeKept(w, rest, k);
      hide Replay, Rewritten, Reserve;
      KeptGoesOn(w, Replay(Rewritten(w.client.value, rest)[..k]), StatesKept(w, rest, k), latest, now);
    }
  }

  lemma KeptGoesOn(w: World, saved: Saved, j: nat, latest: nat, now: nat)
    requires Inv(w) && Running(w) && 0 < j <= |w.client.value.sent|
    requires var s := w.client.value;
      saved.front == w.front && saved.eventBase == s.eventBase && saved.events == s.events
      && saved.sent == Timeless(s.sent)[..j]
    ensures GoesOn(w, saved, latest, now)
  {
    hide Replay, CountsOk, DiskOk;
    var s := w.client.value;
    assert saved.sent[0].num == saved.front;
    assert DropBelow(saved.sent, saved.front) == saved.sent;
    forall i | 0 <= i < j
      ensures saved.sent[i].num in w.counts && saved.sent[i].events == w.counts[saved.sent[i].num]
    {
      assert s.sent[i].num in w.counts;
    }
  }

  lemma CutReserves(w: World, rest: Rest, k: nat)
    requires Rewriting(w, rest) && IsCut(w, rest, k) && Journaled(w.client.value)
    ensures Replay(Rewritten(w.client.value, rest)[..k]).stateReserved == Reserve(w.client.value).book.stateReserved
  {
    hide Replay, Rewritten, Reserve;
    var s, base := w.client.value, BaseAt(rest);
    if k <= base {
      CutBeforeBase(s, rest, k);
    } else if k <= base + 1 + |s.events| {
      CutInEvents(s, rest, k - base - 1);
    } else {
      SomeKept(w, rest, k);
    }
  }

  lemma RestoredAbove(saved: Saved, latest: nat, now: nat)
    ensures Restore(saved, latest, now).sent != [] && NextNum(Restore(saved, latest, now)) >= saved.stateReserved
  {
    hide DropBelow, Wrap;
  }

  lemma ReservedAbove(s: Sender, counts: map<nat, nat>, typed: seq<UserEvent>, now: nat, n: nat)
    requires ClientOk(s, counts, typed, now) && n in counts && Last(s.sent).num + STATE_BLOCK < U64
    ensures n < Reserve(s).book.stateReserved
  {
  }

  /** Wherever the rewrite was cut, numbers taken from then on are new: the reservation was written first. */
  lemma CutNumbersAreNew(w: World, rest: Rest, k: nat, latest: nat, now: nat, n: nat)
    requires Reachable(w) && Rewriting(w, rest) && IsCut(w, rest, k) && n in w.counts
    requires Last(w.client.value.sent).num + STATE_BLOCK < U64
    ensures var r := Restore(Replay(Rewritten(w.client.value, rest)[..k]), latest, now);
      r.sent != [] && n < NextNum(r)
  {
    ReachableKeeps(w);
    NotEnding(w);
    hide Replay, Rewritten, Restore, Reserve, NextNum, ClientOk, Reachable;
    ReservedAbove(w.client.value, w.counts, w.typed, w.now, n);
    CutReserves(w, rest, k);
    RestoredAbove(Replay(Rewritten(w.client.value, rest)[..k]), latest, now);
  }

  // --- The session without what it has forgotten ---

  /** The session as if the states above a number had never been: what it is for a client that does not know them. */
  function Trimmed(w: World, known: nat, disk: seq<Record>): World {
    w.(client := None, disk := Some(disk),
       counts := (map n | n in w.counts && n <= known :: w.counts[n]),
       net := (set m | m in w.net && m.newNum <= known && m.oldNum <= known),
       server := (map n | n in w.server && n <= known :: w.server[n]),
       acks := (set n | n in w.acks && n <= known))
  }

  lemma TrimmedSaved(s: Sender, counts: map<nat, nat>, typed: seq<UserEvent>, now: nat, j: nat, saved: Saved)
    requires CountsOk(counts, typed) && ClientOk(s, counts, typed, now) && SHUTDOWN !in counts && 0 < j <= |s.sent|
    requires saved.front == s.sent[0].num && saved.eventBase == s.eventBase && saved.events == s.events
    requires saved.sent == Timeless(s.sent)[..j]
    ensures var c := map n | n in counts && n <= s.sent[j - 1].num :: counts[n];
      CountsOk(c, typed) && SavedOk(saved, c, typed, s.sent[0].num)
  {
    var c := map n | n in counts && n <= s.sent[j - 1].num :: counts[n];
    forall i | 0 <= i < j
      ensures saved.sent[i].num in c && c[saved.sent[i].num] == saved.sent[i].events
    {
      assert s.sent[i].num in counts;
      assert i < j - 1 ==> Before(s.sent[i], s.sent[j - 1]);
    }
    forall i, k | 0 <= i < k < j ensures Before(saved.sent[i], saved.sent[k]) {
      assert Before(s.sent[i], s.sent[k]);
    }
    assert Last(saved.sent).num == s.sent[j - 1].num;
    assert saved.sent[0].num == saved.front;
  }

  /** Behind the first state sent, what a restart goes on from is a sound session without the states it has forgotten:
    * the invariant holds and all that is said and held is true, so every theorem about further runs is one about what
    * becomes of the states it knows. */
  lemma CutSessionIsSound(w: World, rest: Rest, k: nat)
    requires CarefullyReachable(w) && Rewriting(w, rest) && IsCut(w, rest, k) && StatesKept(w, rest, k) > 0
    ensures StatesKept(w, rest, k) <= |w.client.value.sent|
    ensures var s, file := w.client.value, Rewritten(w.client.value, rest)[..k];
      var v := Trimmed(w, s.sent[StatesKept(w, rest, k) - 1].num, file);
      Inv(v) && Truthful(v) && v.front in v.server && v.typed == w.typed
  {
    CarefulKeeps(w);
    NotEnding(w);
    SomeKept(w, rest, k);
    var s, j := w.client.value, StatesKept(w, rest, k);
    var file := Rewritten(s, rest)[..k];
    TrimmedSaved(s, w.counts, w.typed, w.now, j, Replay(file));
    assert s.sent[0].num <= s.sent[j - 1].num by {
      assert j > 1 ==> Before(s.sent[0], s.sent[j - 1]);
    }
    hide Replay, Rewritten, SavedOk, ClientOk, CarefullyReachable;
    TrimmedIsSound(w, s.sent[j - 1].num, file);
  }

  lemma TrimmedIsSound(w: World, known: nat, file: seq<Record>)
    requires Inv(w) && Truthful(w) && w.front <= known
    requires var v := Trimmed(w, known, file);
      CountsOk(v.counts, w.typed) && SavedOk(Replay(file), v.counts, w.typed, w.front)
    ensures Inv(Trimmed(w, known, file)) && Truthful(Trimmed(w, known, file))
    ensures w.front in Trimmed(w, known, file).server
  {
    hide CountsOk, SavedOk, ClientOk, Replay;
    var v := Trimmed(w, known, file);
    assert DiskOk(v);
  }

  // --- What can still go wrong ---

  lemma GrowingChanges(typed: seq<UserEvent>, keys: Bytes, c: nat)
    requires typed != [] && keys != [] && c <= |typed|
    ensures GrowLast(typed, keys)[..c] != typed[..c] <==> c == |typed|
  {
    if c == |typed| {
      assert GrowLast(typed, keys)[..c][c - 1].keys == typed[..c][c - 1].keys + keys;
    }
  }

  lemma NewestCoversMost(s: Sender, counts: map<nat, nat>, typed: seq<UserEvent>, now: nat)
    requires CountsOk(counts, typed) && ClientOk(s, counts, typed, now)
    ensures s.Total() == |typed| && Last(s.sent).num in counts && counts[Last(s.sent).num] == Last(s.sent).events <= |typed|
    ensures forall n :: n in counts ==> counts[n] <= Last(s.sent).events
  {
    assert Last(s.sent).num in counts;
  }

  /** Whether some number announced stands for something else once the last event has grown. */
  ghost predicate Changes(w: World, keys: Bytes)
    requires w.typed != []
  {
    exists n :: n in w.counts && w.counts[n] <= |w.typed| && GrowLast(w.typed, keys)[..w.counts[n]] != w.typed[..w.counts[n]]
  }

  lemma ChangesExactly(w: World, keys: Bytes)
    requires Inv(w) && Running(w) && keys != [] && w.typed != []
    ensures Changes(w, keys) <==> Last(w.client.value.sent).events == w.client.value.Total()
  {
    var s := w.client.value;
    NewestCoversMost(s, w.counts, w.typed, w.now);
    hide GrowLast, ClientOk, CountsOk, NetOk, ServerOk, AcksOk, DiskOk;
    if Last(s.sent).events == s.Total() {
      GrowingChanges(w.typed, keys, w.counts[Last(s.sent).num]);
    }
    if Changes(w, keys) {
      var n :| n in w.counts && w.counts[n] <= |w.typed| && GrowLast(w.typed, keys)[..w.counts[n]] != w.typed[..w.counts[n]];
      GrowingChanges(w.typed, keys, w.counts[n]);
    }
  }

  /** Keys typed in such a session, with a last event that may grow, change what some number announced stands for if and
    * only if the last state sent before covered that event, which the newest one still known does not. */
  lemma AnnouncedCanGrow(w: World, rest: Rest, k: nat, latest: nat, now: nat, keys: Bytes)
    requires Reachable(w) && Rewriting(w, rest) && IsCut(w, rest, k) && StatesKept(w, rest, k) > 0 && keys != []
    requires var r := Restore(Replay(Rewritten(w.client.value, rest)[..k]), latest, now); r.sent != [] && Growable(r)
    ensures w.typed != [] && w.client.value.eventBase < |w.typed|
    ensures Type(Restore(Replay(Rewritten(w.client.value, rest)[..k]), latest, now), keys).sender.events
         == GrowLast(w.typed, keys)[w.client.value.eventBase..]
    ensures Changes(w, keys) <==> Last(w.client.value.sent).events == w.client.value.Total()
  {
    ReachableKeeps(w);
    NotEnding(w);
    SomeKept(w, rest, k);
    hide Replay, Rewritten, Restore, Type, Growable, Reserve, Reachable, Timeless, Changes, ClientOk, CountsOk, NetOk, ServerOk,
         AcksOk, DiskOk, GrowLast;
    RestoredTypes(Replay(Rewritten(w.client.value, rest)[..k]), latest, now, keys);
    TypedIsLast(w.client.value, w.counts, w.typed, w.now, keys);
    ChangesExactly(w, keys);
  }

  lemma RestoredTypes(saved: Saved, latest: nat, now: nat, keys: Bytes)
    requires Restore(saved, latest, now).sent != [] && Growable(Restore(saved, latest, now)) && keys != []
    ensures saved.events != []
    ensures var e := saved.events;
      Type(Restore(saved, latest, now), keys).sender.events == e[|e| - 1 := Last(e).(keys := Last(e).keys + keys)]
  {
    hide DropBelow;
  }

  lemma TypedIsLast(s: Sender, counts: map<nat, nat>, typed: seq<UserEvent>, now: nat, keys: Bytes)
    requires ClientOk(s, counts, typed, now) && s.events != []
    ensures typed != [] && s.eventBase < |typed|
    ensures GrowLast(typed, keys)[s.eventBase..] == s.events[|s.events| - 1 := Last(s.events).(keys := Last(s.events).keys + keys)]
  {
  }
}
