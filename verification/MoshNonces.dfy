/** Packet sequence numbers over restarts: the nonces of an encryption that must never see one twice. Here a
  * rewrite of the journal may be cut short anywhere. */
module MoshNonces {
  import opened MoshTypes

  const SEQ_BLOCK: nat := 65536
  /** Sequence numbers share their 64 bits with the direction. */
  const SEQ_END: nat := 0x8000_0000_0000_0000

  /** The last reservation a file holds, 0 for none, with which a restart is refused. */
  function Reservation(file: seq<Record>): nat {
    if file == [] then 0
    else if Last(file).SeqReserved? then Last(file).seqReserved
    else Reservation(file[..|file| - 1])
  }

  /** What a rewrite puts before and after the reservation. */
  datatype Parts = Parts(before: seq<Record>, after: seq<Record>)

  predicate NoReservation(rs: seq<Record>) { forall i :: 0 <= i < |rs| ==> !rs[i].SeqReserved? }

  predicate PartsOk(p: Parts) { NoReservation(p.before) && NoReservation(p.after) }

  function Written(p: Parts, reserved: nat): seq<Record> { p.before + [SeqReserved(reserved)] + p.after }

  function Reserved(seqReserved: nat, nextSeq: nat): nat { Max(seqReserved, nextSeq + SEQ_BLOCK) }

  class Numbers {
    var nextSeq: nat
    var seqReserved: nat
    var journaling: bool
    var file: seq<Record>
    var parts: Parts

    constructor (nextSeq: nat, seqReserved: nat)
      ensures this.nextSeq == nextSeq && this.seqReserved == seqReserved && !journaling
    {
      this.nextSeq, this.seqReserved, journaling, file, parts := nextSeq, seqReserved, false, [], Parts([], []);
    }

    method RewriteJournal()
      modifies this`seqReserved, this`file
      ensures if journaling then seqReserved == Reserved(old(seqReserved), nextSeq) && file == Written(parts, seqReserved)
              else seqReserved == old(seqReserved) && file == old(file)
    {
      if journaling {
        seqReserved := Max(seqReserved, nextSeq + SEQ_BLOCK);
        file := parts.before + [SeqReserved(seqReserved)] + parts.after;
      }
    }

    /** The number sendPacket encrypts under. */
    method TakeNumber() returns (number: nat)
      modifies this
      ensures number == old(nextSeq) && nextSeq == number + 1 && journaling == old(journaling) && parts == old(parts)
      ensures if old(journaling && nextSeq >= seqReserved)
              then seqReserved == Reserved(old(seqReserved), number) && file == Written(parts, seqReserved)
              else seqReserved == old(seqReserved) && file == old(file)
    {
      if journaling && nextSeq >= seqReserved {
        RewriteJournal();
      }
      number := nextSeq;
      nextSeq := nextSeq + 1;
    }
  }

  /** used are the numbers packets were encrypted under, in all runs of the app. */
  datatype World = World(running: bool, nextSeq: nat, seqReserved: nat, disk: Option<seq<Record>>, used: seq<nat>)

  /** kept in the crashes is how many records of the rewrite were whole. */
  datatype Action =
    | Packet(parts: Parts)
    | CrashInPacket(parts: Parts, kept: nat)
    | Rewriting(parts: Parts)
    | CrashInRewriting(parts: Parts, kept: nat)
    | Appending(record: Record)
    | Crash
    | Resuming(parts: Parts)
    | CrashInResuming(parts: Parts, kept: nat)

  predicate Enabled(w: World, a: Action) {
    match a
    case Packet(parts) => w.running && PartsOk(parts) && w.nextSeq < SEQ_END
    case CrashInPacket(parts, _) => w.running && PartsOk(parts) && w.disk.Some? && w.nextSeq >= w.seqReserved
    case Rewriting(parts) => w.running && PartsOk(parts)
    case CrashInRewriting(parts, _) => w.running && PartsOk(parts)
    case Appending(record) => w.running && !record.SeqReserved?
    case Crash => w.running
    case Resuming(parts) => !w.running && PartsOk(parts) && w.disk.Some? && Reservation(w.disk.value) > 0
    case CrashInResuming(parts, _) => !w.running && PartsOk(parts) && w.disk.Some? && Reservation(w.disk.value) > 0
  }

  function Cut(file: seq<Record>, kept: nat): seq<Record> { if kept <= |file| then file[..kept] else file }

  function Next(w: World, a: Action): World
    requires Enabled(w, a)
  {
    var reserved := Reserved(w.seqReserved, w.nextSeq);
    match a
    case Packet(parts) =>
      var full := w.disk.Some? && w.nextSeq >= w.seqReserved;
      w.(nextSeq := w.nextSeq + 1, used := w.used + [w.nextSeq],
         seqReserved := if full then reserved else w.seqReserved,
         disk := if full then Some(Written(parts, reserved)) else w.disk)
    case CrashInPacket(parts, kept) => w.(running := false, disk := Some(Cut(Written(parts, reserved), kept)))
    case Rewriting(parts) => w.(seqReserved := reserved, disk := Some(Written(parts, reserved)))
    case CrashInRewriting(parts, kept) => w.(running := false, disk := Some(Cut(Written(parts, reserved), kept)))
    case Appending(record) => w.(disk := if w.disk.Some? then Some(w.disk.value + [record]) else None)
    case Crash => w.(running := false)
    case Resuming(parts) =>
      var next := Reservation(w.disk.value);
      w.(running := true, nextSeq := next, seqReserved := Reserved(next, next),
         disk := Some(Written(parts, Reserved(next, next))))
    case CrashInResuming(parts, kept) =>
      var next := Reservation(w.disk.value);
      w.(disk := Some(Cut(Written(parts, Reserved(next, next)), kept)))
  }

  function Initial(): World { World(true, 0, 0, None, []) }

  predicate Runs(w: World, run: seq<Action>)
    decreases |run|
  {
    run != [] ==> Enabled(w, run[0]) && Runs(Next(w, run[0]), run[1..])
  }

  function After(w: World, run: seq<Action>): World
    requires Runs(w, run)
    decreases |run|
  {
    if run == [] then w else After(Next(w, run[0]), run[1..])
  }

  ghost predicate Below(used: seq<nat>, n: nat) { forall i :: 0 <= i < |used| ==> used[i] < n }

  ghost predicate Inv(w: World) {
    && (forall i, j :: 0 <= i < j < |w.used| ==> w.used[i] < w.used[j])
    && (w.running ==> Below(w.used, w.nextSeq))
    && (w.running && w.disk.Some? ==> w.nextSeq <= w.seqReserved == Reservation(w.disk.value))
    && (w.disk.Some? ==> Reservation(w.disk.value) == 0 || Below(w.used, Reservation(w.disk.value)))
  }

  lemma {:induction false} ReservationAppend(file: seq<Record>, more: seq<Record>)
    requires NoReservation(more)
    ensures Reservation(file + more) == Reservation(file)
  {
    if more == [] {
      assert file + more == file;
    } else {
      ReservationAppend(file, more[..|more| - 1]);
      assert (file + more)[..|file + more| - 1] == file + more[..|more| - 1];
    }
  }

  /** A rewrite cut short holds the new reservation or none, with which there is no restart. */
  lemma ReservationCut(p: Parts, reserved: nat, kept: nat)
    requires PartsOk(p)
    ensures Reservation(Written(p, reserved)) == reserved
    ensures Reservation(Cut(Written(p, reserved), kept)) in {0, reserved}
  {
    var through := p.before + [SeqReserved(reserved)];
    ReservationAppend(through, p.after);
    if kept <= |p.before| {
      assert Cut(Written(p, reserved), kept) == [] + p.before[..kept];
      ReservationAppend([], p.before[..kept]);
    } else if kept < |Written(p, reserved)| {
      assert Cut(Written(p, reserved), kept) == through + p.after[..kept - |through|];
      ReservationAppend(through, p.after[..kept - |through|]);
    } else {
      assert Cut(Written(p, reserved), kept) == Written(p, reserved);
    }
  }

  lemma StepKeeps(w: World, a: Action)
    requires Inv(w) && Enabled(w, a)
    ensures Inv(Next(w, a))
  {
    var reserved := Reserved(w.seqReserved, w.nextSeq);
    match a
    case Packet(parts) => ReservationCut(parts, reserved, 0);
    case CrashInPacket(parts, kept) => ReservationCut(parts, reserved, kept);
    case Rewriting(parts) => ReservationCut(parts, reserved, 0);
    case CrashInRewriting(parts, kept) => ReservationCut(parts, reserved, kept);
    case Appending(record) => if w.disk.Some? { ReservationAppend(w.disk.value, [record]); }
    case Crash =>
    case Resuming(parts) =>
      var next := Reservation(w.disk.value);
      ReservationCut(parts, Reserved(next, next), 0);
    case CrashInResuming(parts, kept) =>
      var next := Reservation(w.disk.value);
      ReservationCut(parts, Reserved(next, next), kept);
  }

  lemma {:induction false} RunKeeps(w: World, run: seq<Action>)
    requires Inv(w) && Runs(w, run)
    ensures Inv(After(w, run))
    decreases |run|
  {
    if run != [] {
      StepKeeps(w, run[0]);
      RunKeeps(Next(w, run[0]), run[1..]);
    }
  }

  /** In any run, with the journal cut short wherever a crash comes, no number is used twice: each is above all
    * before it and, with a journal to restart from, below the reservation in it. */
  lemma NoncesNeverRepeat(run: seq<Action>)
    requires Runs(Initial(), run)
    ensures var w := After(Initial(), run);
      && (forall i, j :: 0 <= i < j < |w.used| ==> w.used[i] < w.used[j])
      && (w.disk.Some? && Reservation(w.disk.value) > 0 ==> Below(w.used, Reservation(w.disk.value)))
  {
    RunKeeps(Initial(), run);
  }
}
