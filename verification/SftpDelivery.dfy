/** What a transfer delivers: exactly the bytes of unchanging files, whatever the answers' lengths, restarts and partial
  * takes, and within a bounded number of answers. */
module SftpDelivery {
  import opened SftpTransfer

  /** The files on the side a transfer reads from. */
  type Files = string -> Bytes

  // --- What the library promises ---

  /** A read answers with bytes from where it asked, none exactly at the end of the file. */
  predicate AnswerFits(q: Request, a: Answer, c: Bytes)
  {
    a.Data? ==>
      && |a.bytes| <= q.length
      && (a.bytes == [] <==> q.offset >= |c|)
      && (a.bytes != [] ==> q.offset + |a.bytes| <= |c| && a.bytes == c[q.offset..q.offset + |a.bytes|])
  }

  /** The answers to the requests in flight, in the order asked. */
  predicate AnswersFit(pending: seq<Request>, answers: seq<Answer>, c: Bytes)
  {
    forall k | 0 <= k < |answers| && k < |pending| :: AnswerFits(pending[k], answers[k], c)
  }

  /** A write is done as a whole or not at all. */
  predicate AcksFit(pending: seq<Request>, acks: seq<Ack>)
  {
    forall k | 0 <= k < |acks| && k < |pending| :: acks[k].Written? ==> acks[k].bytes == pending[k].length
  }

  predicate ChunkFits(position: nat, chunk: Chunk, c: Bytes)
  {
    chunk.Chunk? ==>
      && position + |chunk.bytes| <= |c|
      && chunk.bytes == c[position..position + |chunk.bytes|]
      && (chunk.bytes == [] ==> position == |c|)
  }

  /** The local file is read from where it was left, or put back to. */
  predicate ChunksFit(f: Flow, chunks: seq<Chunk>, c: Bytes)
    requires |chunks| + |f.pending| >= MAX_IN_FLIGHT && Taken(chunks)
    decreases |chunks|
  {
    HasMore(f) ==>
      && ChunkFits(f.position, chunks[0], c)
      && (Pushes(chunks[0]) ==> ChunksFit(Pushed(f, chunks[0]), chunks[1..], c))
  }

  function Source(f: Flow, kind: Kind, files: Files): Bytes
    requires f.items != []
  {
    files(if kind.Download? then f.items[0].remote else f.items[0].local)
  }

  predicate RoundFits(f: Flow, kind: Kind, r: Round, files: Files)
    requires Possible(r) && (f.open ==> f.items != [])
  {
    OpenedHasItems(f, r);
    var g := Begun(f, r);
    g.open ==>
      if kind.Download? then AnswersFit(g.pending, r.answers, Source(g, kind, files))
      else AcksFit(g.pending, r.acks) && ChunksFit(AllAcked(g, r.acks), r.chunks, Source(g, kind, files))
  }

  // --- Downloads ---

  /** Requests one after the other without a gap. */
  predicate Chain(pending: seq<Request>, from: nat, to: nat)
  {
    if pending == [] then from == to
    else pending[0].offset == from && Chain(pending[1..], from + pending[0].length, to)
  }

  lemma {:induction false} ChainGrows(pending: seq<Request>, from: nat, to: nat, length: nat)
    requires Chain(pending, from, to)
    ensures Chain(pending + [Request(to, length)], from, to + length)
  {
    if pending != [] {
      ChainGrows(pending[1..], from + pending[0].length, to, length);
      assert (pending + [Request(to, length)])[1..] == pending[1..] + [Request(to, length)];
    }
  }

  lemma {:induction false} ChainAscends(pending: seq<Request>, from: nat, to: nat)
    requires Chain(pending, from, to)
    ensures forall q :: q in pending ==> q.offset >= from
  {
    if pending != [] {
      ChainAscends(pending[1..], from + pending[0].length, to);
    }
  }

  predicate Beyond(pending: seq<Request>, size: nat) { forall q :: q in pending ==> q.offset >= size }

  /** What has been written is the beginning of the file, as long as the count says unless writing failed. While
    * nothing is in the way, the requests in flight go on from there. At the end it is all of the file. */
  predicate DownloadInv(f: Flow, c: Bytes)
  {
    && f.itemBytes <= |f.done| <= |c| && f.done == c[..|f.done|]
    && (!f.failed ==> |f.done| == f.itemBytes)
    && |f.pending| <= MAX_IN_FLIGHT
    && (f.eof ==> f.itemBytes == |c| && !f.restart && Beyond(f.pending, |c|))
    && (!f.eof && !f.restart && !Stopping(f) ==>
          Chain(f.pending, f.itemBytes, f.position) && f.position == f.requested)
  }

  /** How many more answers it can take. */
  function Effort(f: Flow, c: Bytes): int
  {
    17 * (|c| - f.itemBytes) +
    if f.eof || Stopping(f) then |f.pending| else 17 + if f.restart then |f.pending| else 0
  }

  lemma AnsweredKeeps(f: Flow, a: Answer, c: Bytes)
    requires DownloadInv(f, c) && f.pending != [] && !a.Again? && (a.Data? ==> a.stored <= |a.bytes|)
    requires AnswerFits(f.pending[0], a, c)
    ensures DownloadInv(Answered(f, a), c)
    ensures Effort(Answered(f, a), c) < Effort(f, c)
  {
    var g := Answered(f, a);
    assert Beyond(f.pending, |c|) ==> Beyond(g.pending, |c|);
    if !f.restart && !Stopping(f) && a.Data? {
      if f.eof {
        assert f.pending[0] in f.pending;
      } else {
        ChainAscends(f.pending, f.itemBytes, f.position);
        if a.bytes != [] {
          assert f.done + a.bytes == c[..f.itemBytes + |a.bytes|];
          assert f.done + a.bytes[..a.stored] == c[..f.itemBytes + a.stored];
        }
      }
    }
  }

  lemma {:induction false} AllAnsweredKeeps(f: Flow, answers: seq<Answer>, c: Bytes)
    requires DownloadInv(f, c) && Stored(answers) && AnswersFit(f.pending, answers, c)
    ensures DownloadInv(AllAnswered(f, answers), c)
    ensures Effort(AllAnswered(f, answers), c) + (|f.pending| - |AllAnswered(f, answers).pending|) <= Effort(f, c)
    ensures |AllAnswered(f, answers).pending| <= |f.pending|
    decreases |answers|
  {
    if !(f.pending == [] || answers == [] || answers[0].Again?) {
      hide DownloadInv, Effort, AnswerFits, Stored;
      var g := Answered(f, answers[0]);
      assert AnswerFits(f.pending[0], answers[0], c);
      TailFits(f.pending, answers, c);
      StoredTail(answers);
      AnsweredKeeps(f, answers[0], c);
      PopsOne(f, answers[0]);
      AllAnsweredKeeps(g, answers[1..], c);
    }
  }

  lemma StoredTail(answers: seq<Answer>)
    requires Stored(answers) && answers != []
    ensures Stored(answers[1..]) && (answers[0].Data? ==> answers[0].stored <= |answers[0].bytes|)
  {
  }

  lemma PopsOne(f: Flow, a: Answer)
    requires f.pending != [] && !a.Again? && (a.Data? ==> a.stored <= |a.bytes|)
    ensures Answered(f, a).pending == f.pending[1..]
  {
  }

  lemma TailFits(pending: seq<Request>, answers: seq<Answer>, c: Bytes)
    requires AnswersFit(pending, answers, c) && pending != [] && answers != []
    ensures AnswersFit(pending[1..], answers[1..], c)
  {
    hide AnswerFits;
    forall k | 0 <= k < |answers| - 1 && k < |pending| - 1
      ensures AnswerFits(pending[1..][k], answers[1..][k], c)
    {
      assert AnswerFits(pending[k + 1], answers[k + 1], c);
    }
  }

  lemma RestartedKeeps(f: Flow, c: Bytes)
    requires DownloadInv(f, c)
    ensures DownloadInv(Restarted(f), c) && Effort(Restarted(f), c) == Effort(f, c)
  {
  }

  lemma AskedKeeps(f: Flow, g: Grant, c: Bytes)
    requires DownloadInv(f, c) && WantsMore(f)
    ensures DownloadInv(Asked(f, g), c) && Effort(Asked(f, g), c) <= Effort(f, c)
  {
    if g.Granted? {
      ChainGrows(f.pending, f.itemBytes, f.position, g.length);
    }
  }

  lemma {:induction false} AllAskedKeeps(f: Flow, grants: seq<Grant>, c: Bytes)
    requires DownloadInv(f, c) && |grants| + |f.pending| >= MAX_IN_FLIGHT
    ensures DownloadInv(AllAsked(f, grants), c) && Effort(AllAsked(f, grants), c) <= Effort(f, c)
    decreases |grants|
  {
    if WantsMore(f) {
      hide DownloadInv, Effort;
      AskedKeeps(f, grants[0], c);
      if !grants[0].NoRead? {
        AllAskedKeeps(Asked(f, grants[0]), grants[1..], c);
      }
    }
  }

  /** How many answers a service takes. */
  function Used(f: Flow, answers: seq<Answer>): int
    requires Stored(answers)
  {
    |f.pending| - |AllAnswered(f, answers).pending|
  }

  lemma DownloadedKeeps(f: Flow, answers: seq<Answer>, grants: seq<Grant>, c: Bytes)
    requires DownloadInv(f, c) && Stored(answers) && AnswersFit(f.pending, answers, c) && |grants| >= MAX_IN_FLIGHT
    ensures DownloadInv(Downloaded(f, answers, grants), c)
    ensures 0 <= Used(f, answers) && Effort(Downloaded(f, answers, grants), c) + Used(f, answers) <= Effort(f, c)
  {
    hide DownloadInv, Effort, AllAnswered, AllAsked, AnswersFit, Stored;
    AllAnsweredKeeps(f, answers, c);
    RestartedKeeps(AllAnswered(f, answers), c);
    AllAskedKeeps(Restarted(AllAnswered(f, answers)), grants, c);
  }

  // --- Uploads ---

  function Lengths(pending: seq<Request>): nat
  {
    if pending == [] then 0 else pending[0].length + Lengths(pending[1..])
  }

  lemma {:induction false} LengthsGrow(pending: seq<Request>, q: Request)
    ensures Lengths(pending + [q]) == Lengths(pending) + q.length
  {
    if pending != [] {
      LengthsGrow(pending[1..], q);
      assert (pending + [q])[1..] == pending[1..] + [q];
    } else {
      assert [q][1..] == [];
    }
  }

  /** What the server was given is the beginning of the local file, up to where that is read. What it has not
    * confirmed yet is in flight. At the end it is all of the file. */
  predicate UploadInv(f: Flow, c: Bytes)
  {
    && |f.done| <= |c| && f.done == c[..|f.done|]
    && (!f.failed ==> f.position == |f.done| && f.itemBytes + Lengths(f.pending) == |f.done|)
    && (f.eof ==> |f.done| == |c|)
  }

  lemma {:induction false} AllAckedKeeps(f: Flow, acks: seq<Ack>, c: Bytes)
    requires UploadInv(f, c) && AcksFit(f.pending, acks)
    ensures UploadInv(AllAcked(f, acks), c)
    decreases |acks|
  {
    if !(f.pending == [] || acks == [] || acks[0].Later?) {
      var g := Acked(f, acks[0]);
      assert acks[0].Written? ==> acks[0].bytes == f.pending[0].length;
      AcksTailFits(f.pending, acks);
      AckedKeeps(f, acks[0], c);
      hide UploadInv, AcksFit;
      AllAckedKeeps(g, acks[1..], c);
    }
  }

  lemma AckedKeeps(f: Flow, a: Ack, c: Bytes)
    requires UploadInv(f, c) && f.pending != [] && !a.Later?
    requires a.Written? ==> a.bytes == f.pending[0].length
    ensures UploadInv(Acked(f, a), c)
  {
  }

  lemma AcksTailFits(pending: seq<Request>, acks: seq<Ack>)
    requires AcksFit(pending, acks) && pending != [] && acks != []
    ensures AcksFit(pending[1..], acks[1..])
  {
    forall k | 0 <= k < |acks| - 1 && k < |pending| - 1
      ensures acks[1..][k].Written? ==> acks[1..][k].bytes == pending[1..][k].length
    {
      assert acks[k + 1].Written? ==> acks[k + 1].bytes == pending[k + 1].length;
    }
  }

  lemma PushedKeeps(f: Flow, chunk: Chunk, c: Bytes)
    requires UploadInv(f, c) && HasMore(f) && ChunkFits(f.position, chunk, c)
    requires chunk.Chunk? ==> chunk.taken <= |chunk.bytes|
    ensures UploadInv(Pushed(f, chunk), c)
  {
    if Pushes(chunk) {
      LengthsGrow(f.pending, Request(f.position, chunk.taken));
      assert f.done + chunk.bytes[..chunk.taken] == c[..|f.done| + chunk.taken];
    }
  }

  lemma {:induction false} AllPushedKeeps(f: Flow, chunks: seq<Chunk>, c: Bytes)
    requires UploadInv(f, c) && |chunks| + |f.pending| >= MAX_IN_FLIGHT && Taken(chunks) && ChunksFit(f, chunks, c)
    ensures UploadInv(AllPushed(f, chunks), c)
    decreases |chunks|
  {
    if HasMore(f) {
      assert chunks[0] in chunks;
      PushedKeeps(f, chunks[0], c);
      hide UploadInv, ChunkFits;
      if Pushes(chunks[0]) {
        AllPushedKeeps(Pushed(f, chunks[0]), chunks[1..], c);
      }
    }
  }

  // --- Whole transfers ---

  function EventOf(item: Item, kind: Kind, files: Files): Event
  {
    if kind.Download? then Saved(item, files(item.remote)) else Sent(item, files(item.local))
  }

  /** The log of all these files having arrived. */
  function Delivered(items: seq<Item>, kind: Kind, files: Files): seq<Event>
  {
    if items == [] then [] else
    Delivered(items[..|items| - 1], kind, files) + [EventOf(items[|items| - 1], kind, files)]
  }

  /** Only whole files were put in place. */
  predicate Faithful(log: seq<Event>, files: Files)
  {
    forall e :: e in log ==>
      && (e.Saved? ==> e.content == files(e.item.remote))
      && (e.Sent? ==> e.content == files(e.item.local))
  }

  predicate HasEnded(f: Flow) { exists ok :: Transferred(ok) in f.log }

  predicate ItemInv(f: Flow, kind: Kind, files: Files)
    requires f.items != []
  {
    if kind.Download? then DownloadInv(f, Source(f, kind, files)) else UploadInv(f, Source(f, kind, files))
  }

  predicate Left(f: Flow, items: seq<Item>) { |f.items| <= |items| && f.items == items[|items| - |f.items|..] }

  /** While it goes on: the files so far have arrived, and of the file under way what its invariant says. */
  predicate TransferInv(f: Flow, kind: Kind, items: seq<Item>, files: Files)
  {
    && Left(f, items)
    && (if f.open then f.items != [] && ItemInv(f, kind, files) else f.pending == [])
    && !HasEnded(f)
    && Faithful(f.log, files)
    && (!Stopping(f) ==> f.log == Delivered(items[..|items| - |f.items|], kind, files))
  }

  /** Once it is over: everything has arrived if it says so. */
  predicate EndInv(f: Flow, kind: Kind, items: seq<Item>, files: Files)
  {
    && HasEnded(f)
    && Faithful(f.log, files)
    && (Transferred(true) in f.log ==> f.log == Delivered(items, kind, files) + [Transferred(true)])
  }

  lemma StartHolds(kind: Kind, items: seq<Item>, files: Files)
    ensures TransferInv(Start(items), kind, items, files)
  {
    assert items[..0] == [];
  }

  lemma BegunKeeps(f: Flow, r: Round, kind: Kind, items: seq<Item>, files: Files)
    requires TransferInv(f, kind, items, files)
    ensures TransferInv(Begun(f, r), kind, items, files)
  {
  }

  lemma ServicedItem(f: Flow, kind: Kind, r: Round, files: Files)
    requires Possible(r) && f.open && f.items != [] && ItemInv(f, kind, files)
    requires if kind.Download? then AnswersFit(f.pending, r.answers, Source(f, kind, files))
             else AcksFit(f.pending, r.acks) && ChunksFit(AllAcked(f, r.acks), r.chunks, Source(f, kind, files))
    ensures SameItem(f, Serviced(f, kind, r)) && ItemInv(Serviced(f, kind, r), kind, files)
  {
    hide DownloadInv, UploadInv, AnswersFit, AcksFit, ChunksFit, AllAcked, AllPushed, AllAnswered, AllAsked, Downloaded;
    ServicedKeepsItems(f, kind, r);
    var c := Source(f, kind, files);
    if kind.Download? {
      DownloadedKeeps(f, r.answers, r.grants, c);
    } else {
      AllAckedKeeps(f, r.acks, c);
      AllPushedKeeps(AllAcked(f, r.acks), r.chunks, c);
    }
  }

  /** A file closed without an error has arrived whole. */
  lemma DoneIsWhole(f: Flow, kind: Kind, files: Files)
    requires f.items != [] && ItemInv(f, kind, files) && ItemDone(f) && !Stopping(f)
    ensures f.done == Source(f, kind, files)
  {
    var c := Source(f, kind, files);
    assert c[..|c|] == c;
  }

  lemma ClosedLog(f: Flow, kind: Kind, r: Round, files: Files)
    requires f.open && f.items != [] && ItemInv(f, kind, files) && (ItemDone(f) || Stopping(f))
    ensures var g := Closed(f, kind, r);
      && g.pending == [] && !g.open && g.items == f.items[1..] && f.log <= g.log
      && (!Stopping(g) ==> !Stopping(f) && g.log == f.log + [EventOf(f.items[0], kind, files)])
      && (forall e :: e in g.log && e !in f.log ==> e == EventOf(f.items[0], kind, files) || e.Unlinked?)
  {
    if !Stopping(f) {
      DoneIsWhole(f, kind, files);
    }
  }

  lemma ClosedKeeps(f: Flow, kind: Kind, r: Round, items: seq<Item>, files: Files)
    requires TransferInv(f, kind, items, files) && f.open && (ItemDone(f) || Stopping(f))
    ensures TransferInv(Closed(f, kind, r), kind, items, files)
  {
    hide Closed, ItemInv, Delivered;
    var g := Closed(f, kind, r);
    ClosedLog(f, kind, r, files);
    var n := |items| - |f.items|;
    DeliveredMore(items, n, kind, files);
    assert f.items[0] == items[n];
    assert Left(g, items);
    EventIsWhole(f.items[0], kind, files);
    assert Faithful(g.log, files) && !HasEnded(g);
  }

  lemma EventIsWhole(item: Item, kind: Kind, files: Files)
    ensures Faithful([EventOf(item, kind, files)], files) && !EventOf(item, kind, files).Transferred?
  {
  }

  lemma DeliveredMore(items: seq<Item>, n: nat, kind: Kind, files: Files)
    requires n < |items|
    ensures Delivered(items[..n + 1], kind, files) == Delivered(items[..n], kind, files) + [EventOf(items[n], kind, files)]
  {
    assert items[..n + 1][..n] == items[..n];
  }

  lemma ServicedKeeps(f: Flow, kind: Kind, r: Round, items: seq<Item>, files: Files)
    requires Possible(r) && TransferInv(f, kind, items, files) && f.open
    requires if kind.Download? then AnswersFit(f.pending, r.answers, Source(f, kind, files))
             else AcksFit(f.pending, r.acks) && ChunksFit(AllAcked(f, r.acks), r.chunks, Source(f, kind, files))
    ensures SameItem(f, Serviced(f, kind, r))
    ensures TransferInv(Serviced(f, kind, r), kind, items, files)
  {
    ServicedItem(f, kind, r, files);
    StaysStopped(f, kind, r);
    hide Serviced, ItemInv, Delivered, AnswersFit, AcksFit, ChunksFit, AllAcked;
  }

  lemma StaysStopped(f: Flow, kind: Kind, r: Round)
    requires Possible(r)
    ensures Stopping(f) ==> Stopping(Serviced(f, kind, r))
  {
    hide AllAnswered, AllAsked, AllAcked, AllPushed;
    AnsweredStops(f, r.answers);
    AskedStops(Restarted(AllAnswered(f, r.answers)), r.grants);
    AckedStops(f, r.acks);
    PushedStops(AllAcked(f, r.acks), r.chunks);
  }

  lemma {:induction false} AnsweredStops(f: Flow, answers: seq<Answer>)
    requires Stored(answers)
    ensures Stopping(f) ==> Stopping(AllAnswered(f, answers))
    decreases |answers|
  {
    if !(f.pending == [] || answers == [] || answers[0].Again?) {
      AnsweredStops(Answered(f, answers[0]), answers[1..]);
    }
  }

  lemma {:induction false} AskedStops(f: Flow, grants: seq<Grant>)
    requires |grants| + |f.pending| >= MAX_IN_FLIGHT
    ensures Stopping(f) ==> Stopping(AllAsked(f, grants))
    decreases |grants|
  {
  }

  lemma {:induction false} AckedStops(f: Flow, acks: seq<Ack>)
    ensures Stopping(f) ==> Stopping(AllAcked(f, acks))
    decreases |acks|
  {
    if !(f.pending == [] || acks == [] || acks[0].Later?) {
      AckedStops(Acked(f, acks[0]), acks[1..]);
    }
  }

  lemma {:induction false} PushedStops(f: Flow, chunks: seq<Chunk>)
    requires |chunks| + |f.pending| >= MAX_IN_FLIGHT && Taken(chunks)
    ensures Stopping(f) ==> Stopping(AllPushed(f, chunks))
    decreases |chunks|
  {
  }

  lemma EndedKeeps(f: Flow, kind: Kind, items: seq<Item>, files: Files)
    requires TransferInv(f, kind, items, files)
    ensures if Over(f) then EndInv(Ended(f), kind, items, files) else TransferInv(Ended(f), kind, items, files)
  {
    hide ItemInv, Delivered;
    if Over(f) {
      var g := Ended(f);
      assert Transferred(!Stopping(f)) in g.log;
      if Transferred(true) in g.log {
        assert !Stopping(f);
        assert items[..|items|] == items;
      }
    }
  }

  lemma WorkedKeeps(f: Flow, kind: Kind, r: Round, items: seq<Item>, files: Files)
    requires Possible(r) && TransferInv(f, kind, items, files)
    requires f.open ==>
      if kind.Download? then AnswersFit(f.pending, r.answers, Source(f, kind, files))
      else AcksFit(f.pending, r.acks) && ChunksFit(AllAcked(f, r.acks), r.chunks, Source(f, kind, files))
    ensures TransferInv(Worked(f, kind, r), kind, items, files)
  {
    if f.open {
      ServicedKeeps(f, kind, r, items, files);
      hide TransferInv, Serviced, Closed, AnswersFit, AcksFit, ChunksFit, AllAcked;
      var g := Serviced(f, kind, r);
      if ItemDone(g) {
        ClosedKeeps(g, kind, r, items, files);
      }
    }
  }

  lemma StepKeeps(f: Flow, kind: Kind, r: Round, items: seq<Item>, files: Files)
    requires Possible(r) && TransferInv(f, kind, items, files) && (f.open ==> f.items != []) && RoundFits(f, kind, r, files)
    ensures TransferInv(Step(f, kind, r), kind, items, files) || EndInv(Step(f, kind, r), kind, items, files)
  {
    BegunKeeps(f, r, kind, items, files);
    OpenedHasItems(f, r);
    var g := Begun(f, r);
    hide TransferInv, EndInv, Begun, Worked, Ended, AnswersFit, AcksFit, ChunksFit, AllAcked;
    WorkedKeeps(g, kind, r, items, files);
    EndedKeeps(Worked(g, kind, r), kind, items, files);
  }

  /** Failing in the middle closes the file like any other failure, and whole files stay whole. */
  lemma AbortedKeeps(f: Flow, kind: Kind, r: Round, items: seq<Item>, files: Files)
    requires TransferInv(f, kind, items, files)
    ensures EndInv(Aborted(f, kind, r), kind, items, files)
  {
    var g := f.(failed := true);
    FailedKeeps(f, kind, items, files);
    if f.open {
      ClosedKeeps(g, kind, r, items, files);
    }
    var h := if g.open then Closed(g, kind, r) else g;
    assert Over(h);
    hide Closed, TransferInv;
    EndedKeeps(h, kind, items, files);
  }

  lemma FailedKeeps(f: Flow, kind: Kind, items: seq<Item>, files: Files)
    requires TransferInv(f, kind, items, files)
    ensures TransferInv(f.(failed := true), kind, items, files)
  {
    hide Delivered, Faithful;
  }

  // --- Runs ---

  /** A transfer is serviced, or everything is failed because the session is over. */
  datatype Turn = Serve(round: Round) | FailAll(round: Round)

  predicate Fits(f: Flow, kind: Kind, t: Turn, files: Files)
  {
    (f.open ==> f.items != []) && (t.Serve? ==> Possible(t.round) && RoundFits(f, kind, t.round, files))
  }

  function Turned(f: Flow, kind: Kind, t: Turn): Flow
    requires (f.open ==> f.items != []) && (t.Serve? ==> Possible(t.round))
  {
    match t
    case Serve(r) => Step(f, kind, r)
    case FailAll(r) => Aborted(f, kind, r)
  }

  lemma TurnKeeps(f: Flow, kind: Kind, t: Turn, items: seq<Item>, files: Files)
    requires TransferInv(f, kind, items, files) && Fits(f, kind, t, files)
    ensures TransferInv(Turned(f, kind, t), kind, items, files) || EndInv(Turned(f, kind, t), kind, items, files)
    ensures t.FailAll? ==> EndInv(Turned(f, kind, t), kind, items, files)
  {
    hide TransferInv, EndInv, Step, Aborted, RoundFits, Possible;
    match t
    case Serve(r) => StepKeeps(f, kind, r, items, files);
    case FailAll(r) => AbortedKeeps(f, kind, r, items, files);
  }

  /** A run goes on until the transfer is over. */
  predicate Runs(f: Flow, kind: Kind, run: seq<Turn>, files: Files)
    decreases |run|
  {
    run == [] ||
    (!HasEnded(f) && Fits(f, kind, run[0], files) && Runs(Turned(f, kind, run[0]), kind, run[1..], files))
  }

  function After(f: Flow, kind: Kind, run: seq<Turn>, files: Files): Flow
    requires Runs(f, kind, run, files)
    decreases |run|
  {
    if run == [] then f else After(Turned(f, kind, run[0]), kind, run[1..], files)
  }

  lemma {:induction false} RunKeeps(f: Flow, kind: Kind, run: seq<Turn>, items: seq<Item>, files: Files)
    requires TransferInv(f, kind, items, files) || EndInv(f, kind, items, files)
    requires Runs(f, kind, run, files)
    ensures var g := After(f, kind, run, files);
      TransferInv(g, kind, items, files) || EndInv(g, kind, items, files)
    decreases |run|
  {
    if run != [] {
      hide TransferInv, Turned, RoundFits, Possible;
      assert !EndInv(f, kind, items, files);
      TurnKeeps(f, kind, run[0], items, files);
      hide EndInv;
      RunKeeps(Turned(f, kind, run[0]), kind, run[1..], items, files);
    }
  }

  /** Whatever the answers, only whole files are put in place, and a transfer that says it succeeded has moved every
    * one of its files, in order, byte for byte. */
  lemma ExactBytesArrive(kind: Kind, run: seq<Turn>, items: seq<Item>, files: Files)
    requires Runs(Start(items), kind, run, files)
    ensures var g := After(Start(items), kind, run, files);
      && Faithful(g.log, files)
      && (Transferred(true) in g.log ==> g.log == Delivered(items, kind, files) + [Transferred(true)])
  {
    StartHolds(kind, items, files);
    hide After, Delivered, Faithful, ItemInv;
    RunKeeps(Start(items), kind, run, items, files);
  }

  /** At any time what a download has written of its file, and the server been given of an upload, is its beginning,
    * and as long as the engine believes. */
  lemma BeginningArrives(kind: Kind, run: seq<Turn>, items: seq<Item>, files: Files)
    requires Runs(Start(items), kind, run, files)
    ensures var g := After(Start(items), kind, run, files);
      g.open && !HasEnded(g) ==>
        && g.items != []
        && g.done <= Source(g, kind, files)
        && (!g.failed ==> |g.done| == g.itemBytes + if kind.Download? then 0 else Lengths(g.pending))
  {
    StartHolds(kind, items, files);
    hide After, Delivered, Faithful;
    RunKeeps(Start(items), kind, run, items, files);
  }

  // --- When a transfer succeeds ---

  /** Nothing goes wrong in a turn: no Cancel, no error of the library, of the phone's files or of the session. */
  predicate Smooth(t: Turn)
  {
    && t.Serve? && !t.round.cancel && t.round.opens && t.round.closes && t.round.commits
    && (forall a :: a in t.round.answers ==> !a.Failure? && (a.Data? ==> a.stored == |a.bytes|))
    && NoRead !in t.round.grants && Refused !in t.round.acks
    && (forall c :: c in t.round.chunks ==> c.Chunk? && c.taken >= 0)
  }

  lemma {:induction false} AnswersGoWell(f: Flow, answers: seq<Answer>)
    requires Stored(answers) && !Stopping(f)
    requires forall a :: a in answers ==> !a.Failure? && (a.Data? ==> a.stored == |a.bytes|)
    ensures !Stopping(AllAnswered(f, answers))
    decreases |answers|
  {
    if !(f.pending == [] || answers == [] || answers[0].Again?) {
      assert answers[0] in answers;
      AnswersGoWell(Answered(f, answers[0]), answers[1..]);
    }
  }

  lemma {:induction false} AsksGoWell(f: Flow, grants: seq<Grant>)
    requires |grants| + |f.pending| >= MAX_IN_FLIGHT && !Stopping(f) && NoRead !in grants
    ensures !Stopping(AllAsked(f, grants))
    decreases |grants|
  {
    if WantsMore(f) {
      assert grants[0] in grants;
      AsksGoWell(Asked(f, grants[0]), grants[1..]);
    }
  }

  lemma {:induction false} AcksGoWell(f: Flow, acks: seq<Ack>)
    requires !Stopping(f) && Refused !in acks
    ensures !Stopping(AllAcked(f, acks))
    decreases |acks|
  {
    if !(f.pending == [] || acks == [] || acks[0].Later?) {
      assert acks[0] in acks;
      AcksGoWell(Acked(f, acks[0]), acks[1..]);
    }
  }

  lemma {:induction false} PushesGoWell(f: Flow, chunks: seq<Chunk>)
    requires |chunks| + |f.pending| >= MAX_IN_FLIGHT && Taken(chunks) && !Stopping(f)
    requires forall c :: c in chunks ==> c.Chunk? && c.taken >= 0
    ensures !Stopping(AllPushed(f, chunks))
    decreases |chunks|
  {
    if HasMore(f) {
      assert chunks[0] in chunks;
      if Pushes(chunks[0]) {
        PushesGoWell(Pushed(f, chunks[0]), chunks[1..]);
      }
    }
  }

  lemma ServiceGoesWell(f: Flow, kind: Kind, r: Round)
    requires Possible(r) && Smooth(Serve(r)) && !Stopping(f)
    ensures !Stopping(Serviced(f, kind, r))
  {
    hide AllAnswered, AllAsked, AllAcked, AllPushed;
    if kind.Download? {
      AnswersGoWell(f, r.answers);
      AsksGoWell(Restarted(AllAnswered(f, r.answers)), r.grants);
    } else {
      AcksGoWell(f, r.acks);
      PushesGoWell(AllAcked(f, r.acks), r.chunks);
    }
  }

  /** No answer yet, and nothing in the way of a good one, or just that. */
  predicate GoesWell(f: Flow)
  {
    !Stopping(f) && Transferred(false) !in f.log
  }

  lemma WorkGoesWell(f: Flow, kind: Kind, r: Round)
    requires GoesWell(f) && Smooth(Serve(r)) && Possible(r) && (f.open ==> f.items != [])
    ensures GoesWell(Worked(f, kind, r))
  {
    if f.open {
      ServiceGoesWell(f, kind, r);
      ServicedKeepsItems(f, kind, r);
      hide Serviced, Possible;
    }
  }

  lemma TurnGoesWell(f: Flow, kind: Kind, t: Turn)
    requires GoesWell(f) && Smooth(t) && Possible(t.round) && (f.open ==> f.items != [])
    ensures GoesWell(Turned(f, kind, t))
  {
    var r := t.round;
    OpenedHasItems(f, r);
    assert GoesWell(Begun(f, r));
    WorkGoesWell(Begun(f, r), kind, r);
    hide Worked, Possible, Begun;
  }

  lemma {:induction false} RunGoesWell(f: Flow, kind: Kind, run: seq<Turn>, files: Files)
    requires GoesWell(f) && Runs(f, kind, run, files) && forall t :: t in run ==> Smooth(t)
    ensures GoesWell(After(f, kind, run, files))
    decreases |run|
  {
    if run != [] {
      hide GoesWell, Turned, Smooth, RoundFits, Possible;
      assert Smooth(run[0]) && run[0].Serve? by { SmoothServes(run[0]); }
      TurnGoesWell(f, kind, run[0]);
      RunGoesWell(Turned(f, kind, run[0]), kind, run[1..], files);
    }
  }

  lemma SmoothServes(t: Turn)
    requires Smooth(t)
    ensures t.Serve?
  {
  }

  /** A transfer that is over without a Cancel and without an error anywhere says that it succeeded, so all its files have
    * arrived; it says that it failed only if something went wrong. For downloads and uploads. */
  lemma NothingWrongSucceeds(kind: Kind, run: seq<Turn>, items: seq<Item>, files: Files)
    requires Runs(Start(items), kind, run, files) && forall t :: t in run ==> Smooth(t)
    ensures var g := After(Start(items), kind, run, files);
      && Transferred(false) !in g.log
      && (HasEnded(g) ==> g.log == Delivered(items, kind, files) + [Transferred(true)])
  {
    hide Smooth, Delivered;
    RunGoesWell(Start(items), kind, run, files);
    ExactBytesArrive(kind, run, items, files);
    hide After, Runs;
    var g := After(Start(items), kind, run, files);
    if HasEnded(g) {
      var ok :| Transferred(ok) in g.log;
      assert ok;
    }
  }

  /** Cancelled or failed, and no word of success. */
  predicate IsStopped(f: Flow) { Stopping(f) && Transferred(true) !in f.log }

  lemma WorkStaysStopped(f: Flow, kind: Kind, r: Round)
    requires IsStopped(f) && Possible(r) && (f.open ==> f.items != [])
    ensures IsStopped(Worked(f, kind, r))
  {
    if f.open {
      StaysStopped(f, kind, r);
      ServicedKeepsItems(f, kind, r);
      hide Serviced, Possible;
    }
  }

  lemma TurnStops(f: Flow, kind: Kind, t: Turn)
    requires Transferred(true) !in f.log && (f.open ==> f.items != []) && (t.Serve? ==> Possible(t.round))
    requires Stopping(f) || t.FailAll? || t.round.cancel
    ensures IsStopped(Turned(f, kind, t))
  {
    match t
    case Serve(r) =>
      OpenedHasItems(f, r);
      assert IsStopped(Begun(f, r));
      WorkStaysStopped(Begun(f, r), kind, r);
      hide Worked, Possible, Begun;
    case FailAll(r) =>
  }

  lemma {:induction false} RunStaysStopped(f: Flow, kind: Kind, run: seq<Turn>, files: Files)
    requires IsStopped(f) && Runs(f, kind, run, files)
    ensures IsStopped(After(f, kind, run, files))
    decreases |run|
  {
    if run != [] {
      hide Turned, RoundFits, Possible;
      TurnStops(f, kind, run[0]);
      RunStaysStopped(Turned(f, kind, run[0]), kind, run[1..], files);
    }
  }

  lemma {:induction false} RunStops(f: Flow, kind: Kind, run: seq<Turn>, files: Files, k: nat)
    requires !HasEnded(f) && Runs(f, kind, run, files) && k < |run| && (run[k].FailAll? || run[k].round.cancel)
    ensures IsStopped(After(f, kind, run, files))
    decreases |run|
  {
    hide Turned, RoundFits, Possible;
    if k == 0 {
      TurnStops(f, kind, run[0]);
      RunStaysStopped(Turned(f, kind, run[0]), kind, run[1..], files);
    } else {
      assert run[1..][k - 1] == run[k];
      RunStops(Turned(f, kind, run[0]), kind, run[1..], files, k - 1);
    }
  }

  /** A transfer that was cancelled, or under way when the session ended, never says that it succeeded. */
  lemma CancelledNeverSucceeds(kind: Kind, run: seq<Turn>, items: seq<Item>, files: Files, k: nat)
    requires Runs(Start(items), kind, run, files) && k < |run| && (run[k].FailAll? || run[k].round.cancel)
    ensures Transferred(true) !in After(Start(items), kind, run, files).log
  {
    RunStops(Start(items), kind, run, files, k);
  }

  /** What closing a file does on the server and on the phone: an upload cut short is removed, unless it replaced a file or
    * the connection is gone, and a download cut short leaves nothing. */
  lemma ClosedExactly(f: Flow, kind: Kind, r: Round)
    requires f.open && f.items != []
    ensures var g, item := Closed(f, kind, r), f.items[0];
      && f.log <= g.log && |g.log| <= |f.log| + 1
      && (Stopping(f) || !r.closes ==>
            && Stopping(g) && (g.log != f.log ==> g.log == f.log + [Unlinked(item)])
            && (g.log != f.log <==> kind.Upload? && !kind.overwrite && r.connected))
      && (!Stopping(f) && r.closes ==>
            && (Stopping(g) <==> kind.Download? && !r.commits)
            && g.log == f.log + if kind.Upload? then [Sent(item, f.done)] else if r.commits then [Saved(item, f.done)] else [])
      && g.items == f.items[1..] && !g.open && g.pending == []
  {
  }

  // --- What a transfer makes of good answers ---

  /** As many reads or writes in flight as there may be. */
  lemma {:induction false} AsksForSixteen(f: Flow, grants: seq<Grant>)
    requires |grants| + |f.pending| >= MAX_IN_FLIGHT && |f.pending| <= 16 && NoRead !in grants
    requires !f.eof && !f.restart && !Stopping(f)
    ensures |AllAsked(f, grants).pending| == 16
    decreases |grants|
  {
    if WantsMore(f) {
      assert grants[0] in grants;
      AsksForSixteen(Asked(f, grants[0]), grants[1..]);
    }
  }

  lemma {:induction false} PushesSixteen(f: Flow, chunks: seq<Chunk>)
    requires |chunks| + |f.pending| >= MAX_IN_FLIGHT && Taken(chunks) && |f.pending| <= 16 && !f.eof && !Stopping(f)
    requires forall c :: c in chunks ==> Pushes(c)
    ensures |AllPushed(f, chunks).pending| == 16
    decreases |chunks|
  {
    if HasMore(f) {
      assert chunks[0] in chunks;
      PushesSixteen(Pushed(f, chunks[0]), chunks[1..]);
    }
  }

  /** Whatever is asked for or read of a file at a time may be 32 KiB, and not more. */
  lemma ChunksExactly(r: Round)
    ensures Chunked(r) <==> (forall g :: g in r.grants && g.Granted? ==> g.length <= 32768)
                            && (forall c :: c in r.chunks && c.Chunk? ==> |c.bytes| <= 32768)
  {
  }

  /** After a service sixteen reads are in flight, unless the end of the file was seen, an answer was short or something
    * went wrong; of an upload sixteen writes, as long as the local file gives something to push. */
  lemma SixteenInFlight(f: Flow, kind: Kind, r: Round)
    requires Possible(r) && |f.pending| <= 16
    ensures kind.Download? && NoRead !in r.grants ==>
      var g := Restarted(AllAnswered(f, r.answers));
      !g.eof && !g.restart && !Stopping(g) ==> |Serviced(f, kind, r).pending| == 16
    ensures kind.Upload? && (forall c :: c in r.chunks ==> Pushes(c)) ==>
      var g := AllAcked(f, r.acks);
      !g.eof && !Stopping(g) ==> |Serviced(f, kind, r).pending| == 16
  {
    var g := Restarted(AllAnswered(f, r.answers));
    FewerToAnswer(f, r.answers);
    FewerToAck(f, r.acks);
    hide AllAnswered, AllAcked, AllAsked, AllPushed;
    if kind.Download? && NoRead !in r.grants && !g.eof && !g.restart && !Stopping(g) {
      AsksForSixteen(g, r.grants);
    }
    if kind.Upload? && (forall c :: c in r.chunks ==> Pushes(c)) && !AllAcked(f, r.acks).eof && !Stopping(AllAcked(f, r.acks)) {
      PushesSixteen(AllAcked(f, r.acks), r.chunks);
    }
  }

  lemma {:induction false} FewerToAnswer(f: Flow, answers: seq<Answer>)
    requires Stored(answers)
    ensures |AllAnswered(f, answers).pending| <= |f.pending|
    decreases |answers|
  {
    if !(f.pending == [] || answers == [] || answers[0].Again?) {
      PopsOne(f, answers[0]);
      hide Answered;
      FewerToAnswer(Answered(f, answers[0]), answers[1..]);
    }
  }

  lemma {:induction false} FewerToAck(f: Flow, acks: seq<Ack>)
    ensures |AllAcked(f, acks).pending| <= |f.pending|
    decreases |acks|
  {
    if !(f.pending == [] || acks == [] || acks[0].Later?) {
      FewerToAck(Acked(f, acks[0]), acks[1..]);
    }
  }

  /** A read is started over if and only if an answer was shorter than asked for, and not the end. */
  lemma RestartsExactly(f: Flow, a: Answer)
    requires f.pending != [] && !a.Again? && (a.Data? ==> a.stored <= |a.bytes|) && !f.restart && !Stopping(f)
    ensures Answered(f, a).restart <==> a.Data? && a.stored == |a.bytes| && 0 < |a.bytes| < f.pending[0].length
    ensures Answered(f, a).eof <==> f.eof || (a.Data? && a.bytes == [])
  {
  }

  /** What the phone's file took of an answer stays in it, and a file that did not take all of it fails. An answer is moved
    * to the file whole or not counted. */
  lemma StoredExactly(f: Flow, a: Answer)
    requires f.pending != [] && a.Data? && a.stored <= |a.bytes| && !f.restart && !Stopping(f)
    ensures var g := Answered(f, a);
      && g.pending == f.pending[1..] && g.done == f.done + a.bytes[..a.stored]
      && (g.failed <==> a.stored != |a.bytes|)
      && (g.failed ==> g.bytes == f.bytes) && (!g.failed ==> g.bytes == f.bytes + |a.bytes|)
  {
    assert a.bytes[..|a.bytes|] == a.bytes;
  }

  // --- Progress ---

  function SizeOf(items: seq<Item>, kind: Kind, files: Files): nat
  {
    if items == [] then 0 else
    var last := items[|items| - 1];
    SizeOf(items[..|items| - 1], kind, files) + |files(if kind.Download? then last.remote else last.local)|
  }

  /** The bytes reported are those of the files that have arrived and what is confirmed of the one under way. */
  predicate Counted(f: Flow, kind: Kind, items: seq<Item>, files: Files)
  {
    !Stopping(f) ==>
      |f.items| <= |items| && f.bytes == SizeOf(items[..|items| - |f.items|], kind, files) + if f.open then f.itemBytes else 0
  }

  lemma {:induction false} AnswersCount(f: Flow, answers: seq<Answer>)
    requires Stored(answers)
    ensures AllAnswered(f, answers).bytes - AllAnswered(f, answers).itemBytes == f.bytes - f.itemBytes
    decreases |answers|
  {
    if !(f.pending == [] || answers == [] || answers[0].Again?) {
      AnswersCount(Answered(f, answers[0]), answers[1..]);
    }
  }

  lemma {:induction false} AsksCount(f: Flow, grants: seq<Grant>)
    requires |grants| + |f.pending| >= MAX_IN_FLIGHT
    ensures AllAsked(f, grants).bytes == f.bytes && AllAsked(f, grants).itemBytes == f.itemBytes
    decreases |grants|
  {
    if WantsMore(f) && !grants[0].NoRead? {
      AsksCount(Asked(f, grants[0]), grants[1..]);
    }
  }

  lemma {:induction false} AcksCount(f: Flow, acks: seq<Ack>)
    ensures AllAcked(f, acks).bytes - AllAcked(f, acks).itemBytes == f.bytes - f.itemBytes
    decreases |acks|
  {
    if !(f.pending == [] || acks == [] || acks[0].Later?) {
      AcksCount(Acked(f, acks[0]), acks[1..]);
    }
  }

  lemma {:induction false} PushesCount(f: Flow, chunks: seq<Chunk>)
    requires |chunks| + |f.pending| >= MAX_IN_FLIGHT && Taken(chunks)
    ensures AllPushed(f, chunks).bytes == f.bytes && AllPushed(f, chunks).itemBytes == f.itemBytes
    decreases |chunks|
  {
    if HasMore(f) && Pushes(chunks[0]) {
      PushesCount(Pushed(f, chunks[0]), chunks[1..]);
    }
  }

  lemma ServiceCounts(f: Flow, kind: Kind, r: Round)
    requires Possible(r)
    ensures Serviced(f, kind, r).bytes - Serviced(f, kind, r).itemBytes == f.bytes - f.itemBytes
  {
    hide AllAnswered, AllAsked, AllAcked, AllPushed;
    AnswersCount(f, r.answers);
    AsksCount(Restarted(AllAnswered(f, r.answers)), r.grants);
    AcksCount(f, r.acks);
    PushesCount(AllAcked(f, r.acks), r.chunks);
  }

  lemma SizeOfMore(items: seq<Item>, n: nat, kind: Kind, files: Files)
    requires n < |items|
    ensures SizeOf(items[..n + 1], kind, files)
         == SizeOf(items[..n], kind, files) + |files(if kind.Download? then items[n].remote else items[n].local)|
  {
    assert items[..n + 1][..n] == items[..n];
  }

  /** A file closed without an error has all its bytes counted: of an upload none is unconfirmed. */
  lemma DoneIsCounted(f: Flow, kind: Kind, files: Files)
    requires f.items != [] && ItemInv(f, kind, files) && ItemDone(f) && !Stopping(f)
    ensures f.itemBytes == |Source(f, kind, files)|
  {
  }

  lemma ServicedCounts(f: Flow, kind: Kind, r: Round, items: seq<Item>, files: Files)
    requires Possible(r) && Counted(f, kind, items, files) && f.open
    ensures Counted(Serviced(f, kind, r), kind, items, files)
  {
    ServicedKeepsItems(f, kind, r);
    StaysStopped(f, kind, r);
    ServiceCounts(f, kind, r);
    hide Serviced, Possible, SizeOf;
  }

  lemma ClosedCounts(f: Flow, kind: Kind, r: Round, items: seq<Item>, files: Files)
    requires TransferInv(f, kind, items, files) && f.open && ItemDone(f) && Counted(f, kind, items, files)
    ensures Counted(Closed(f, kind, r), kind, items, files)
  {
    ClosedExactly(f, kind, r);
    ClosedKeepsBytes(f, kind, r);
    if !Stopping(f) {
      DoneIsCounted(f, kind, files);
      var n := |items| - |f.items|;
      SizeOfMore(items, n, kind, files);
      assert f.items[0] == items[n];
    }
    hide Closed, SizeOf, ItemInv, Delivered, Faithful;
  }

  lemma ClosedKeepsBytes(f: Flow, kind: Kind, r: Round)
    requires f.open && f.items != []
    ensures Closed(f, kind, r).bytes == f.bytes && (Stopping(f) ==> Stopping(Closed(f, kind, r)))
  {
  }

  lemma WorkCounts(f: Flow, kind: Kind, r: Round, items: seq<Item>, files: Files)
    requires Possible(r) && TransferInv(f, kind, items, files) && Counted(f, kind, items, files)
    requires f.open ==>
      if kind.Download? then AnswersFit(f.pending, r.answers, Source(f, kind, files))
      else AcksFit(f.pending, r.acks) && ChunksFit(AllAcked(f, r.acks), r.chunks, Source(f, kind, files))
    ensures Counted(Worked(f, kind, r), kind, items, files)
  {
    if f.open {
      ServicedKeeps(f, kind, r, items, files);
      ServicedCounts(f, kind, r, items, files);
      hide Serviced, Closed, Counted, TransferInv, AnswersFit, AcksFit, ChunksFit, AllAcked, Possible;
      if ItemDone(Serviced(f, kind, r)) {
        ClosedCounts(Serviced(f, kind, r), kind, r, items, files);
      }
    }
  }

  lemma BegunCounts(f: Flow, kind: Kind, r: Round, items: seq<Item>, files: Files)
    requires Counted(f, kind, items, files)
    ensures Counted(Begun(f, r), kind, items, files)
  {
    hide SizeOf;
  }

  lemma EndedCounts(f: Flow, kind: Kind, items: seq<Item>, files: Files)
    requires Counted(f, kind, items, files)
    ensures Counted(Ended(f), kind, items, files)
  {
    hide SizeOf;
  }

  lemma AbortedCounts(f: Flow, kind: Kind, r: Round, items: seq<Item>, files: Files)
    requires f.open ==> f.items != []
    ensures Counted(Aborted(f, kind, r), kind, items, files)
  {
    hide SizeOf;
  }

  lemma TurnCounts(f: Flow, kind: Kind, t: Turn, items: seq<Item>, files: Files)
    requires TransferInv(f, kind, items, files) && Fits(f, kind, t, files) && Counted(f, kind, items, files)
    ensures Counted(Turned(f, kind, t), kind, items, files)
  {
    hide Worked, Begun, Ended, Aborted, Possible, TransferInv, AnswersFit, AcksFit, ChunksFit, AllAcked, Counted;
    match t
    case Serve(r) =>
      OpenedHasItems(f, r);
      BegunKeeps(f, r, kind, items, files);
      BegunCounts(f, kind, r, items, files);
      WorkCounts(Begun(f, r), kind, r, items, files);
      EndedCounts(Worked(Begun(f, r), kind, r), kind, items, files);
    case FailAll(r) => AbortedCounts(f, kind, r, items, files);
  }

  lemma {:induction false} RunCounts(f: Flow, kind: Kind, run: seq<Turn>, items: seq<Item>, files: Files)
    requires TransferInv(f, kind, items, files) || EndInv(f, kind, items, files)
    requires Runs(f, kind, run, files) && Counted(f, kind, items, files)
    ensures Counted(After(f, kind, run, files), kind, items, files)
    decreases |run|
  {
    if run != [] {
      hide TransferInv, Turned, RoundFits, Possible, Counted;
      assert !EndInv(f, kind, items, files);
      TurnKeeps(f, kind, run[0], items, files);
      TurnCounts(f, kind, run[0], items, files);
      hide EndInv;
      RunCounts(Turned(f, kind, run[0]), kind, run[1..], items, files);
    }
  }

  /** The progress reported is true: at any time the sizes of the files that have arrived and what is confirmed of the one
    * under way. */
  lemma ProgressIsTrue(kind: Kind, run: seq<Turn>, items: seq<Item>, files: Files)
    requires Runs(Start(items), kind, run, files)
    ensures Counted(After(Start(items), kind, run, files), kind, items, files)
  {
    StartHolds(kind, items, files);
    assert items[..0] == [];
    hide After, Runs, TransferInv;
    RunCounts(Start(items), kind, run, items, files);
  }

  // --- How long a download can take ---

  function EffortOfAll(items: seq<Item>, files: Files): nat
  {
    if items == [] then 0 else 17 * (|files(items[0].remote)| + 1) + EffortOfAll(items[1..], files)
  }

  function Remaining(f: Flow, files: Files): int
    requires f.open ==> f.items != []
  {
    if f.open then Effort(f, Source(f, Download, files)) + EffortOfAll(f.items[1..], files)
    else EffortOfAll(f.items, files)
  }

  lemma EffortIsLeft(f: Flow, c: Bytes)
    requires DownloadInv(f, c)
    ensures Effort(f, c) >= 0
  {
  }

  lemma BegunRemaining(f: Flow, r: Round, items: seq<Item>, files: Files)
    requires TransferInv(f, Download, items, files)
    ensures Begun(f, r).open ==> Begun(f, r).items != []
    ensures Remaining(Begun(f, r), files) <= Remaining(f, files)
  {
    hide Delivered;
  }

  function UsedIn(f: Flow, r: Round): int
    requires Possible(r)
  {
    if Begun(f, r).open then Used(Begun(f, r), r.answers) else 0
  }

  lemma WorkedRemaining(f: Flow, r: Round, files: Files)
    requires Possible(r) && f.open && f.items != []
    requires DownloadInv(f, Source(f, Download, files)) && AnswersFit(f.pending, r.answers, Source(f, Download, files))
    ensures var g := Worked(f, Download, r);
      && 0 <= Used(f, r.answers)
      && (g.open ==> g.items != [])
      && Remaining(g, files) + Used(f, r.answers) <= Remaining(f, files)
  {
    var c := Source(f, Download, files);
    ServicedKeepsItems(f, Download, r);
    DownloadedKeeps(f, r.answers, r.grants, c);
    EffortIsLeft(Serviced(f, Download, r), c);
    hide DownloadInv, AnswersFit, Downloaded, AllAnswered, Effort;
  }

  lemma StepRemaining(f: Flow, r: Round, items: seq<Item>, files: Files)
    requires Possible(r) && TransferInv(f, Download, items, files) && (f.open ==> f.items != [])
    requires RoundFits(f, Download, r, files)
    ensures var g := Step(f, Download, r);
      && 0 <= UsedIn(f, r)
      && (g.open ==> g.items != [])
      && Remaining(g, files) + UsedIn(f, r) <= Remaining(f, files)
  {
    BegunRemaining(f, r, items, files);
    BegunKeeps(f, r, Download, items, files);
    var g := Begun(f, r);
    hide DownloadInv, AnswersFit, Delivered, Worked, Effort, AllAnswered, Begun;
    if g.open {
      WorkedRemaining(g, r, files);
    } else {
      NothingOpen(g, Download, r);
    }
  }

  function UsedInTurn(f: Flow, t: Turn): int
    requires t.Serve? ==> Possible(t.round)
  {
    match t
    case Serve(r) => UsedIn(f, r)
    case FailAll(_) => 0
  }

  function UsedInAll(f: Flow, run: seq<Turn>, files: Files): int
    requires Runs(f, Download, run, files)
    decreases |run|
  {
    if run == [] then 0 else UsedInTurn(f, run[0]) + UsedInAll(Turned(f, Download, run[0]), run[1..], files)
  }

  lemma TurnRemaining(f: Flow, t: Turn, items: seq<Item>, files: Files)
    requires TransferInv(f, Download, items, files) && Fits(f, Download, t, files)
    ensures var g := Turned(f, Download, t);
      && 0 <= UsedInTurn(f, t)
      && (g.open ==> g.items != [])
      && Remaining(g, files) + UsedInTurn(f, t) <= Remaining(f, files)
      && (TransferInv(g, Download, items, files) || 0 <= Remaining(g, files))
  {
    match t
    case Serve(r) =>
      hide TransferInv, RoundFits, Possible, Remaining, Step, Used;
      StepRemaining(f, r, items, files);
      if !TransferInv(Step(f, Download, r), Download, items, files) {
        StepIsLeft(f, r, items, files);
      }
    case FailAll(r) =>
      if f.open {
        EffortIsLeft(f, Source(f, Download, files));
        hide Effort, TransferInv, DownloadInv, Source;
      }
  }

  lemma {:induction false} RunRemaining(f: Flow, run: seq<Turn>, items: seq<Item>, files: Files)
    requires TransferInv(f, Download, items, files) || EndInv(f, Download, items, files)
    requires (f.open ==> f.items != []) && Runs(f, Download, run, files)
    ensures UsedInAll(f, run, files) <= if TransferInv(f, Download, items, files) then Remaining(f, files) else 0
    decreases |run|
  {
    if run == [] {
      if TransferInv(f, Download, items, files) {
        RemainingIsLeft(f, items, files);
      }
    } else {
      assert !EndInv(f, Download, items, files);
      hide TransferInv, EndInv, Turned, RoundFits, Possible, UsedInTurn, Remaining;
      TurnKeeps(f, Download, run[0], items, files);
      TurnRemaining(f, run[0], items, files);
      RunRemaining(Turned(f, Download, run[0]), run[1..], items, files);
    }
  }

  lemma RemainingIsLeft(f: Flow, items: seq<Item>, files: Files)
    requires TransferInv(f, Download, items, files)
    ensures f.open ==> f.items != []
    ensures 0 <= Remaining(f, files)
  {
    if f.open {
      EffortIsLeft(f, Source(f, Download, files));
    }
  }

  lemma StepIsLeft(f: Flow, r: Round, items: seq<Item>, files: Files)
    requires Possible(r) && TransferInv(f, Download, items, files) && (f.open ==> f.items != [])
    requires RoundFits(f, Download, r, files)
    requires !TransferInv(Step(f, Download, r), Download, items, files)
    requires Step(f, Download, r).open ==> Step(f, Download, r).items != []
    ensures 0 <= Remaining(Step(f, Download, r), files)
  {
    BegunKeeps(f, r, Download, items, files);
    OpenedHasItems(f, r);
    var g := Begun(f, r);
    hide TransferInv, Begun, Worked, AnswersFit, AcksFit, ChunksFit, AllAcked, Remaining;
    WorkedKeeps(g, Download, r, items, files);
    var h := Worked(g, Download, r);
    RemainingIsLeft(h, items, files);
    SameRemaining(h, files);
  }

  lemma SameRemaining(f: Flow, files: Files)
    requires f.open ==> f.items != []
    ensures (Ended(f).open ==> Ended(f).items != []) && Remaining(Ended(f), files) == Remaining(f, files)
  {
  }

  /** Short answers and the restarts after them cannot go on for ever: a download of any files is done with a bounded
    * number of answers, seventeen for every byte and for every file at most. */
  lemma DownloadsEnd(run: seq<Turn>, items: seq<Item>, files: Files)
    requires Runs(Start(items), Download, run, files)
    ensures UsedInAll(Start(items), run, files) <= EffortOfAll(items, files)
  {
    hide UsedInAll, EffortOfAll, Delivered;
    StartHolds(Download, items, files);
    RunRemaining(Start(items), run, items, files);
  }

  // --- That a transfer cannot stall ---

  predicate InFlight(f: Flow) { f.open ==> f.pending != [] }

  lemma {:induction false} AskedFills(f: Flow, grants: seq<Grant>)
    requires |grants| + |f.pending| >= MAX_IN_FLIGHT
    ensures !WantsMore(AllAsked(f, grants))
    ensures AllAsked(f, grants).restart == f.restart && |AllAsked(f, grants).pending| >= |f.pending|
    decreases |grants|
  {
    if WantsMore(f) && !grants[0].NoRead? {
      AskedFills(Asked(f, grants[0]), grants[1..]);
    }
  }

  lemma {:induction false} PushedFills(f: Flow, chunks: seq<Chunk>)
    requires |chunks| + |f.pending| >= MAX_IN_FLIGHT && Taken(chunks)
    ensures !HasMore(AllPushed(f, chunks))
    decreases |chunks|
  {
    if HasMore(f) && Pushes(chunks[0]) {
      PushedFills(Pushed(f, chunks[0]), chunks[1..]);
    }
  }

  lemma ServicedFills(f: Flow, kind: Kind, r: Round)
    requires Possible(r)
    ensures ItemDone(Serviced(f, kind, r)) || Serviced(f, kind, r).pending != []
  {
    hide AllAnswered, AllAsked, AllAcked, AllPushed;
    AskedFills(Restarted(AllAnswered(f, r.answers)), r.grants);
    PushedFills(AllAcked(f, r.acks), r.chunks);
  }

  /** After every service a file still open has a read or a write in flight, for which an answer will come. */
  lemma StepsNeverStall(f: Flow, kind: Kind, r: Round)
    requires Possible(r) && (f.open ==> f.items != [])
    ensures InFlight(Step(f, kind, r))
  {
    hide Serviced;
    OpenedHasItems(f, r);
    var g := Begun(f, r);
    if g.open {
      ServicedFills(g, kind, r);
      ServicedKeepsItems(g, kind, r);
    }
  }

  /** A turn that is not kept waiting: of the reads in flight at least the oldest has its answer. */
  predicate Prompt(f: Flow, t: Turn)
  {
    t.Serve? && f.open && f.pending != [] ==> t.round.answers != [] && !t.round.answers[0].Again?
  }

  predicate AllPrompt(f: Flow, run: seq<Turn>, files: Files)
    requires Runs(f, Download, run, files)
    decreases |run|
  {
    run == [] || (Prompt(f, run[0]) && AllPrompt(Turned(f, Download, run[0]), run[1..], files))
  }

  /** How many more turns it can take: two for each answer, and one to open a file. */
  function TurnsLeft(f: Flow, files: Files): int
    requires f.open ==> f.items != []
  {
    2 * Remaining(f, files) + if f.open then 0 else 1
  }

  lemma PromptUses(f: Flow, answers: seq<Answer>, c: Bytes)
    requires DownloadInv(f, c) && Stored(answers) && AnswersFit(f.pending, answers, c)
    requires f.pending != [] && answers != [] && !answers[0].Again?
    ensures Used(f, answers) >= 1
  {
    hide DownloadInv, Effort, AnswerFits, Stored;
    assert AnswerFits(f.pending[0], answers[0], c);
    TailFits(f.pending, answers, c);
    StoredTail(answers);
    AnsweredKeeps(f, answers[0], c);
    PopsOne(f, answers[0]);
    AllAnsweredKeeps(Answered(f, answers[0]), answers[1..], c);
  }

  /** A service that opens no file, or in vain, ends the transfer. */
  lemma OpensOrEnds(f: Flow, r: Round)
    requires Possible(r) && !f.open && f.pending == []
    ensures Step(f, Download, r).open || HasEnded(Step(f, Download, r))
  {
    hide AllAsked;
    OpenedHasItems(f, r);
    var g := Begun(f, r);
    if g.open {
      assert AllAnswered(g, r.answers) == g;
      AskedKeepsItems(g, r.grants);
      AskedNotAtEnd(g, r.grants);
      ServicedKeepsItems(g, Download, r);
    }
    var h := Worked(g, Download, r);
    assert h.open || Over(h);
    assert !h.open ==> Transferred(!Stopping(h)) in Ended(h).log;
  }

  lemma {:induction false} AskedNotAtEnd(f: Flow, grants: seq<Grant>)
    requires |grants| + |f.pending| >= MAX_IN_FLIGHT
    ensures AllAsked(f, grants).eof == f.eof
    decreases |grants|
  {
    if WantsMore(f) && !grants[0].NoRead? {
      AskedNotAtEnd(Asked(f, grants[0]), grants[1..]);
    }
  }

  lemma TurnGoesOn(f: Flow, t: Turn, items: seq<Item>, files: Files)
    requires TransferInv(f, Download, items, files) && Fits(f, Download, t, files) && InFlight(f) && Prompt(f, t)
    ensures var g := Turned(f, Download, t);
      HasEnded(g) || (InFlight(g) && (g.open ==> g.items != []) && TurnsLeft(g, files) < TurnsLeft(f, files))
  {
    match t
    case FailAll(r) =>
      AbortedKeeps(f, Download, r, items, files);
      hide Aborted;
    case Serve(r) =>
      TurnRemaining(f, t, items, files);
      StepsNeverStall(f, Download, r);
      if f.open {
        assert Begun(f, r).items == f.items;
        PromptUses(Begun(f, r), r.answers, Source(f, Download, files));
      } else {
        OpensOrEnds(f, r);
      }
      hide Step, Remaining, TransferInv, Used, HasEnded;
  }

  /** A download that gets an answer at each service is over after a bounded number of services, whatever it moves and
    * however short the answers are. */
  lemma {:induction false} PromptRunEnds(f: Flow, run: seq<Turn>, items: seq<Item>, files: Files)
    requires TransferInv(f, Download, items, files) && InFlight(f)
    requires Runs(f, Download, run, files) && AllPrompt(f, run, files)
    requires f.open ==> f.items != []
    ensures |run| <= TurnsLeft(f, files) + 1
    decreases |run|
  {
    RemainingIsLeft(f, items, files);
    if run != [] {
      hide TransferInv, EndInv, Turned, Fits, Prompt, TurnsLeft, InFlight;
      TurnKeeps(f, Download, run[0], items, files);
      TurnGoesOn(f, run[0], items, files);
      var g := Turned(f, Download, run[0]);
      if HasEnded(g) {
        assert run[1..] == [];
        TurnsAreLeft(f, items, files);
      } else {
        NotEnded(g, Download, items, files);
        PromptRunEnds(g, run[1..], items, files);
      }
    }
  }

  lemma TurnsAreLeft(f: Flow, items: seq<Item>, files: Files)
    requires TransferInv(f, Download, items, files)
    ensures (f.open ==> f.items != []) && 0 <= TurnsLeft(f, files)
  {
    RemainingIsLeft(f, items, files);
  }

  lemma NotEnded(f: Flow, kind: Kind, items: seq<Item>, files: Files)
    requires !HasEnded(f) && (TransferInv(f, kind, items, files) || EndInv(f, kind, items, files))
    ensures TransferInv(f, kind, items, files)
  {
  }

  /** So no download goes on for ever while it is answered: of any files it is over after at most so many services. */
  lemma DownloadsFinish(run: seq<Turn>, items: seq<Item>, files: Files)
    requires Runs(Start(items), Download, run, files) && AllPrompt(Start(items), run, files)
    ensures |run| <= 2 * EffortOfAll(items, files) + 2
  {
    hide AllPrompt, EffortOfAll, Delivered;
    StartHolds(Download, items, files);
    PromptRunEnds(Start(items), run, items, files);
  }

  // --- Uploads end too ---

  /** How many more turns with an answer an upload's file can take. */
  function UploadEffort(f: Flow, c: Bytes): int
  {
    2 * (|c| - |f.done|) + |f.pending| + if f.eof || Stopping(f) then 0 else 1
  }

  /** Of the writes in flight at least the oldest has its answer, and of what is read something is taken. */
  predicate PromptUpload(f: Flow, t: Turn)
  {
    t.Serve? ==>
      && (f.open && f.pending != [] ==> t.round.acks != [] && !t.round.acks[0].Later?)
      && (forall c :: c in t.round.chunks && c.Chunk? && c.bytes != [] ==> c.taken != 0)
  }

  lemma OneAckLess(f: Flow, a: Ack, c: Bytes)
    requires f.pending != [] && !a.Later?
    ensures UploadEffort(Acked(f, a), c) < UploadEffort(f, c)
  {
  }

  lemma {:induction false} AckedEffort(f: Flow, acks: seq<Ack>, c: Bytes)
    ensures UploadEffort(AllAcked(f, acks), c) <= UploadEffort(f, c)
    ensures f.pending != [] && acks != [] && !acks[0].Later? ==> UploadEffort(AllAcked(f, acks), c) < UploadEffort(f, c)
    decreases |acks|
  {
    if !(f.pending == [] || acks == [] || acks[0].Later?) {
      OneAckLess(f, acks[0], c);
      hide UploadEffort, Acked;
      AckedEffort(Acked(f, acks[0]), acks[1..], c);
    }
  }

  lemma {:induction false} PushedEffort(f: Flow, chunks: seq<Chunk>, c: Bytes)
    requires |chunks| + |f.pending| >= MAX_IN_FLIGHT && Taken(chunks)
    requires forall k :: k in chunks && k.Chunk? && k.bytes != [] ==> k.taken != 0
    ensures UploadEffort(AllPushed(f, chunks), c) <= UploadEffort(f, c)
    decreases |chunks|
  {
    if HasMore(f) {
      assert chunks[0] in chunks;
      if Pushes(chunks[0]) {
        PushedEffort(Pushed(f, chunks[0]), chunks[1..], c);
      }
    }
  }

  function UploadEffortOfAll(items: seq<Item>, files: Files): nat
  {
    if items == [] then 0 else 2 * |files(items[0].local)| + 1 + UploadEffortOfAll(items[1..], files)
  }

  function UploadTurnsLeft(f: Flow, files: Files, kind: Kind): int
    requires f.open ==> f.items != []
  {
    if f.open then 2 * (UploadEffort(f, Source(f, kind, files)) + UploadEffortOfAll(f.items[1..], files))
    else 2 * UploadEffortOfAll(f.items, files) + 1
  }

  lemma UploadTurnsAreLeft(f: Flow, kind: Kind, items: seq<Item>, files: Files)
    requires TransferInv(f, kind, items, files) && kind.Upload?
    ensures (f.open ==> f.items != []) && 0 <= UploadTurnsLeft(f, files, kind)
  {
  }

  /** What working on an open file makes of its effort: less with an answer, and if it is closed there was some left. */
  lemma WorkedUpload(f: Flow, kind: Kind, r: Round, items: seq<Item>, files: Files)
    requires TransferInv(f, kind, items, files) && kind.Upload? && Possible(r) && f.open && PromptUpload(f, Serve(r))
    requires AcksFit(f.pending, r.acks) && ChunksFit(AllAcked(f, r.acks), r.chunks, Source(f, kind, files))
    ensures var g, c := Worked(f, kind, r), Source(f, kind, files); var less := if f.pending != [] then 1 else 0;
      if g.open then g.items == f.items && UploadEffort(g, c) + less <= UploadEffort(f, c)
      else g.items == f.items[1..] && less <= UploadEffort(f, c)
  {
    var c := Source(f, kind, files);
    ServicedKeepsItems(f, kind, r);
    ServicedKeeps(f, kind, r, items, files);
    EffortLeft(Serviced(f, kind, r), kind, items, files);
    AckedEffort(f, r.acks, c);
    PushedEffort(AllAcked(f, r.acks), r.chunks, c);
    hide AllAcked, AllPushed, AcksFit, ChunksFit, TransferInv, UploadEffort;
  }

  lemma EffortLeft(f: Flow, kind: Kind, items: seq<Item>, files: Files)
    requires TransferInv(f, kind, items, files) && kind.Upload? && f.open
    ensures f.items != [] && UploadEffort(f, Source(f, kind, files)) >= 0
  {
  }

  /** Beginning a turn: an open file goes on, another is opened with all its effort, or there is nothing to do any more. */
  lemma BegunUpload(f: Flow, kind: Kind, r: Round, files: Files)
    requires kind.Upload? && (f.open ==> f.items != []) && (!f.open ==> f.pending == [])
    ensures var g := Begun(f, r);
      && g.items == f.items && g.log == f.log && (g.open ==> g.items != [])
      && (f.open ==> g.open && g.pending == f.pending
                     && UploadEffort(g, Source(g, kind, files)) <= UploadEffort(f, Source(f, kind, files)))
      && (!f.open && g.open ==>
            g.pending == [] && UploadEffort(g, Source(g, kind, files)) == 2 * |Source(g, kind, files)| + 1)
      && (!g.open ==> Over(g))
  {
  }

  lemma UploadTurnGoesOn(f: Flow, kind: Kind, t: Turn, items: seq<Item>, files: Files)
    requires TransferInv(f, kind, items, files) && kind.Upload? && Fits(f, kind, t, files) && InFlight(f) && PromptUpload(f, t)
    ensures var g := Turned(f, kind, t);
      HasEnded(g) || (InFlight(g) && (g.open ==> g.items != []) && UploadTurnsLeft(g, files, kind) < UploadTurnsLeft(f, files, kind))
  {
    match t
    case FailAll(r) =>
      AbortedKeeps(f, kind, r, items, files);
      hide Aborted;
    case Serve(r) =>
      var g := Begun(f, r);
      BegunUpload(f, kind, r, files);
      BegunKeeps(f, r, kind, items, files);
      StepsNeverStall(f, kind, r);
      if g.open {
        WorkedUpload(g, kind, r, items, files);
        SameTurnsLeft(Worked(g, kind, r), kind, files);
        hide TransferInv, UploadEffort, Worked, Begun, Possible, AcksFit, ChunksFit, AllAcked;
      } else {
        assert Worked(g, kind, r) == g;
        assert Transferred(!Stopping(g)) in Ended(g).log;
      }
  }

  lemma SameTurnsLeft(f: Flow, kind: Kind, files: Files)
    requires f.open ==> f.items != []
    ensures var g := Ended(f);
      g.open == f.open && g.items == f.items && UploadTurnsLeft(g, files, kind) == UploadTurnsLeft(f, files, kind)
  {
  }

  predicate AllPromptUpload(f: Flow, kind: Kind, run: seq<Turn>, files: Files)
    requires Runs(f, kind, run, files)
    decreases |run|
  {
    run == [] || (PromptUpload(f, run[0]) && AllPromptUpload(Turned(f, kind, run[0]), kind, run[1..], files))
  }

  lemma {:induction false} PromptUploadEnds(f: Flow, kind: Kind, run: seq<Turn>, items: seq<Item>, files: Files)
    requires TransferInv(f, kind, items, files) && kind.Upload? && InFlight(f)
    requires Runs(f, kind, run, files) && AllPromptUpload(f, kind, run, files)
    requires f.open ==> f.items != []
    ensures |run| <= UploadTurnsLeft(f, files, kind) + 1
    decreases |run|
  {
    UploadTurnsAreLeft(f, kind, items, files);
    if run != [] {
      hide TransferInv, EndInv, Turned, Fits, PromptUpload, UploadTurnsLeft, InFlight;
      TurnKeeps(f, kind, run[0], items, files);
      UploadTurnGoesOn(f, kind, run[0], items, files);
      var g := Turned(f, kind, run[0]);
      if HasEnded(g) {
        assert run[1..] == [];
      } else {
        NotEnded(g, kind, items, files);
        PromptUploadEnds(g, kind, run[1..], items, files);
      }
    }
  }

  /** An upload whose writes are answered at each service, and of which the library takes something whenever it is given
    * some, is over after a bounded number of services. */
  lemma UploadsFinish(kind: Kind, run: seq<Turn>, items: seq<Item>, files: Files)
    requires kind.Upload? && Runs(Start(items), kind, run, files) && AllPromptUpload(Start(items), kind, run, files)
    ensures |run| <= 2 * UploadEffortOfAll(items, files) + 2
  {
    hide AllPromptUpload, UploadEffortOfAll, Delivered;
    StartHolds(kind, items, files);
    PromptUploadEnds(Start(items), kind, run, items, files);
  }
}
