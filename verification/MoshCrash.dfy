/** A crash byte by byte: the journal of a reachable session, with whatever part of one more record behind it. */
module MoshCrash {
  import opened MoshTypes
  import opened MoshSender
  import opened MoshSession
  import opened MoshGuarantees
  import opened MoshJournal
  import Cut = MoshCut

  /** Records that come back from the file as they were written. */
  ghost predicate Kept(rs: seq<Record>) {
    AllFit(rs) && forall i :: 0 <= i < |rs| ==> SizesKept(rs[i])
  }

  lemma KeptBelow(rs: seq<Record>, k: nat)
    requires Kept(rs) && k <= |rs|
    ensures Kept(rs[..k]) && AllAsRead(rs[..k]) == rs[..k]
  {
    KeptAsRead(rs[..k]);
  }

  /** A last record that is not whole is as if it had never been written. */
  lemma TornRecordIsDropped(file: seq<Record>, r: Record, n: nat)
    requires Kept(file + [r])
    requires |EncodeAll(file)| <= n < |EncodeAll(file + [r])|
    ensures ReadFrom(EncodeAll(file + [r])[..n], 0, NOTHING_READ) == Some(ApplyAll(file))
  {
    hide EncodeAll, ReadFrom, ApplyAll, AllAsRead, Encode, Fits, SizesKept;
    var all, before := file + [r], EncodeAll(file);
    assert all[..|file|] == file && Last(all) == r;
    EncodeAllSnoc(all);
    KeptBelow(all, |file|);
    assert Fits(r) by { assert all[|file|] == r; }
    assert EncodeAll(all)[..n] == before + Encode(r)[..n - |before|];
    ReadWhole(file, Encode(r)[..n - |before|]);
    ReadTorn(before, r, n - |before|, ApplyAll(file));
  }

  /** Whatever record a crash tears apart, and at whatever byte, the file is read as the records before it, is accepted
    * exactly when those are, and a restart from it goes on where the session was. A crash between two writes of a tick
    * is a reachable session too, so this is about the bytes of every write the session makes behind the others. */
  lemma TornCrashLosesNothing(w: World, r: Record, n: nat, latest: nat, now: nat)
    requires Reachable(w) && w.disk.Some? && Kept(w.disk.value + [r])
    requires |EncodeAll(w.disk.value)| <= n < |EncodeAll(w.disk.value + [r])|
    ensures var data := EncodeAll(w.disk.value + [r])[..n];
      && (Read(data).Some? <==> n <= MAX_FILE && Usable(ApplyAll(w.disk.value)))
      && (Read(data).Some? ==> GoesOn(w, Read(data).value.sender, latest, now))
  {
    hide Reachable, GoesOn, EncodeAll, ReadFrom, ApplyAll, Usable, Replay;
    TornRecordIsDropped(w.disk.value, r, n);
    SenderIsReplay(w.disk.value);
    CrashLosesNothing(w, latest, now);
  }

  /** The app is gone: it has crashed between two writes already, or does so now. */
  function Crashed(w: World): World { if w.client.Some? then Next(w, Crash) else w }

  /** The session then resumed has the sender that reading the bytes restores, and is one every theorem about reachable
    * sessions holds of: what the server lacks is sent again. That holds of a record torn behind others the same operation
    * wrote too. */
  lemma TornCrashResumes(w: World, r: Record, n: nat, rest: Rest, latest: nat, time: nat, columns: nat, rows: nat)
    requires Reachable(w) && w.disk.Some? && Kept(w.disk.value + [r])
    requires |EncodeAll(w.disk.value)| <= n < |EncodeAll(w.disk.value + [r])|
    requires Others(rest) && Sized(columns, rows) && Read(EncodeAll(w.disk.value + [r])[..n]).Some?
    ensures var v, saved := Crashed(w), Read(EncodeAll(w.disk.value + [r])[..n]).value.sender;
      && Enabled(v, Resuming(rest, latest, time, columns, rows))
      && (var u := Next(v, Resuming(rest, latest, time, columns, rows));
          && Reachable(u)
          && u.client == Some(Resize(Reserve(Restore(saved, latest, time)), columns, rows).sender)
          && u.typed == Resized(w.typed, columns, rows) && u.server == w.server)
  {
    hide Reachable, EncodeAll, ReadFrom, ApplyAll, Usable, Replay, Restore, Resize, Reserve, FileAfter, FrontOf;
    TornRecordIsDropped(w.disk.value, r, n);
    SenderIsReplay(w.disk.value);
    if w.client.Some? {
      ReachableStep(w, Crash);
    }
    ReachableStep(Crashed(w), Resuming(rest, latest, time, columns, rows));
  }

  /** A rewrite cut at any byte is read as its whole records, and what a restart then keeps is exactly what MoshCut says
    * of a rewrite cut after those. */
  lemma TornRewriteExactly(s: Sender, rest: Rest, n: nat, latest: nat, now: nat) returns (k: nat)
    requires Others(rest) && Cut.Journaled(s) && Kept(Cut.Rewritten(s, rest))
    requires n <= |EncodeAll(Cut.Rewritten(s, rest))|
    ensures k <= |Cut.Rewritten(s, rest)| && |EncodeAll(Cut.Rewritten(s, rest)[..k])| <= n
    ensures k < |Cut.Rewritten(s, rest)| ==> n < |EncodeAll(Cut.Rewritten(s, rest)[..k + 1])|
    ensures ReadFrom(EncodeAll(Cut.Rewritten(s, rest))[..n], 0, NOTHING_READ) == Some(ApplyAll(Cut.Rewritten(s, rest)[..k]))
    ensures k >= |rest.head| + 2 ==>
      var r := Restore(ApplyAll(Cut.Rewritten(s, rest)[..k]).sender, latest, now);
      var base := Cut.BaseAt(rest);
      && (Cut.KeepsTyping(s, r) <==> k > base + |s.events| || (s.events == [] && s.eventBase == 0))
      && (Cut.KeepsCounts(s, r) <==>
            || k > base + 1 + |s.events|
            || s.sent[0].events == if k > base then s.eventBase else 0)
  {
    hide Cut.Rewritten, EncodeAll, ReadFrom, ApplyAll, AllAsRead, Replay, Restore, Cut.KeepsTyping, Cut.KeepsCounts,
         Cut.Journaled, Others, Fits, SizesKept;
    var file := Cut.Rewritten(s, rest);
    k := ReadCut(file, n);
    KeptBelow(file, k);
    SenderIsReplay(file[..k]);
    if k >= |rest.head| + 2 {
      Cut.CutRewriteExactly(s, rest, k, latest, now);
    }
  }
}
