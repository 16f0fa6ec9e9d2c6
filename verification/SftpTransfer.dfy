/** One transfer of the SFTP engine: up to sixteen reads or writes in flight, short answers, restarts and partial takes. */
module SftpTransfer {

  const MAX_IN_FLIGHT := 16
  const CHUNK_SIZE := 32 * 1024

  type Bytes = seq<bv8>

  datatype Item = Item(remote: string, local: string)

  /** A request in flight: where the library asked from and how much. */
  datatype Request = Request(offset: nat, length: nat)

  datatype Event =
      // A download put in place on the phone, an upload complete on the server, a half one removed there
    | Saved(item: Item, content: Bytes)
    | Sent(item: Item, content: Bytes)
    | Unlinked(item: Item)
    | Transferred(ok: bool)

  /** done is what a download has written so far, or what the server has been given of an upload, position where the
    * library reads on from, or the local file. */
  datatype Flow = Flow(items: seq<Item>, open: bool, done: Bytes, position: nat, itemBytes: nat, requested: nat,
                       pending: seq<Request>, eof: bool, restart: bool, failed: bool, cancelled: bool, bytes: nat,
                       log: seq<Event>)

  /** What waiting for the oldest read says. stored is how much of it the phone's file took. */
  datatype Answer = Again | Failure | Data(bytes: Bytes, stored: nat)

  /** What asking for the next chunk says: how much the library will read of it. */
  datatype Grant = NoRead | Granted(length: nat)

  /** What waiting for the oldest write says. */
  datatype Ack = Later | Refused | Written(bytes: nat)

  /** The next chunk of the local file, and how much of it the library took for a write, less than nothing if it failed. */
  datatype Chunk = Unreadable | Chunk(bytes: Bytes, taken: int)

  // --- Downloads ---

  predicate Stopping(f: Flow) { f.cancelled || f.failed }

  function Answered(f: Flow, a: Answer): Flow
    requires f.pending != [] && !a.Again?
    requires a.Data? ==> a.stored <= |a.bytes|
  {
    var g := f.(pending := f.pending[1..]);
    if f.restart || Stopping(f) then g
    else if a.Failure? then g.(failed := true)
    else if a.bytes == [] then g.(eof := true)
    else if a.stored != |a.bytes| then g.(failed := true, done := f.done + a.bytes[..a.stored])
    else g.(done := f.done + a.bytes, bytes := f.bytes + |a.bytes|, itemBytes := f.itemBytes + |a.bytes|,
            restart := |a.bytes| < f.pending[0].length)
  }

  predicate Stored(answers: seq<Answer>) { forall a :: a in answers && a.Data? ==> a.stored <= |a.bytes| }

  /** Answers come back in the order asked, until one has not come yet. */
  function AllAnswered(f: Flow, answers: seq<Answer>): Flow
    requires Stored(answers)
    decreases |answers|
  {
    if f.pending == [] || answers == [] || answers[0].Again? then f
    else AllAnswered(Answered(f, answers[0]), answers[1..])
  }

  function Restarted(f: Flow): Flow
  {
    if f.restart && f.pending == [] then f.(restart := false, requested := f.itemBytes, position := f.itemBytes) else f
  }

  predicate WantsMore(f: Flow) { !f.eof && !f.restart && !Stopping(f) && |f.pending| < MAX_IN_FLIGHT }

  function Asked(f: Flow, g: Grant): Flow
  {
    if g.NoRead? then f.(failed := true) else
    f.(pending := f.pending + [Request(f.position, g.length)], requested := f.requested + g.length,
       position := f.position + g.length)
  }

  function AllAsked(f: Flow, grants: seq<Grant>): Flow
    requires |grants| + |f.pending| >= MAX_IN_FLIGHT
    decreases |grants|
  {
    if !WantsMore(f) then f
    else if grants[0].NoRead? then Asked(f, grants[0])
    else AllAsked(Asked(f, grants[0]), grants[1..])
  }

  function Downloaded(f: Flow, answers: seq<Answer>, grants: seq<Grant>): Flow
    requires Stored(answers) && |grants| >= MAX_IN_FLIGHT
  {
    AllAsked(Restarted(AllAnswered(f, answers)), grants)
  }

  // --- Uploads ---

  function Acked(f: Flow, a: Ack): Flow
    requires f.pending != [] && !a.Later?
  {
    var g := f.(pending := f.pending[1..]);
    if a.Refused? then g.(failed := true) else g.(bytes := f.bytes + a.bytes, itemBytes := f.itemBytes + a.bytes)
  }

  function AllAcked(f: Flow, acks: seq<Ack>): Flow
    decreases |acks|
  {
    if f.pending == [] || acks == [] || acks[0].Later? then f
    else AllAcked(Acked(f, acks[0]), acks[1..])
  }

  predicate HasMore(f: Flow) { !f.eof && !Stopping(f) && |f.pending| < MAX_IN_FLIGHT }

  /** The local file is read, and read back by what the library did not take. */
  function Pushed(f: Flow, c: Chunk): Flow
    requires c.Chunk? ==> c.taken <= |c.bytes|
  {
    if c.Unreadable? then f.(failed := true)
    else if c.bytes == [] then f.(eof := true)
    else if c.taken < 0 then f.(failed := true, position := f.position + |c.bytes|)
    else f.(position := f.position + |c.bytes| - (|c.bytes| - c.taken), done := f.done + c.bytes[..c.taken],
            pending := f.pending + [Request(f.position, c.taken)])
  }

  predicate Pushes(c: Chunk) { c.Chunk? && c.bytes != [] && c.taken >= 0 }

  predicate Taken(chunks: seq<Chunk>) { forall c :: c in chunks && c.Chunk? ==> c.taken <= |c.bytes| }

  function AllPushed(f: Flow, chunks: seq<Chunk>): Flow
    requires |chunks| + |f.pending| >= MAX_IN_FLIGHT && Taken(chunks)
    decreases |chunks|
  {
    if !HasMore(f) then f
    else if !Pushes(chunks[0]) then Pushed(f, chunks[0])
    else AllPushed(Pushed(f, chunks[0]), chunks[1..])
  }

  function Uploaded(f: Flow, acks: seq<Ack>, chunks: seq<Chunk>): Flow
    requires |chunks| >= MAX_IN_FLIGHT && Taken(chunks)
  {
    AllPushed(AllAcked(f, acks), chunks)
  }

  // --- Files one after the other ---

  datatype Kind = Download | Upload(overwrite: bool)

  /** What the library and the phone's files say while a transfer is serviced once. */
  datatype Round = Round(cancel: bool, opens: bool, answers: seq<Answer>, grants: seq<Grant>, acks: seq<Ack>,
                         chunks: seq<Chunk>, closes: bool, commits: bool, connected: bool)

  predicate Possible(r: Round)
  {
    && |r.grants| >= MAX_IN_FLIGHT && |r.chunks| >= MAX_IN_FLIGHT
    && Stored(r.answers) && Taken(r.chunks) && Chunked(r)
  }

  /** No more than a chunk is asked for or read at a time. */
  predicate Chunked(r: Round)
  {
    && (forall g :: g in r.grants && g.Granted? ==> g.length <= CHUNK_SIZE)
    && (forall c :: c in r.chunks && c.Chunk? ==> |c.bytes| <= CHUNK_SIZE)
  }

  function Start(items: seq<Item>): Flow
  {
    Flow(items, false, [], 0, 0, 0, [], false, false, false, false, 0, [])
  }

  function Opened(f: Flow, r: Round): Flow
    requires f.items != []
  {
    f.(open := r.opens, failed := f.failed || !r.opens, done := [], position := 0, itemBytes := 0, requested := 0,
       eof := false, restart := false)
  }

  function Closed(f: Flow, kind: Kind, r: Round): Flow
    requires f.open && f.items != []
  {
    var failed := f.failed || !r.closes;
    var stop := failed || f.cancelled;
    f.(pending := [], open := false, items := f.items[1..],
       failed := failed || (kind.Download? && !stop && !r.commits),
       log := f.log +
         if kind.Download? then if !stop && r.commits then [Saved(f.items[0], f.done)] else []
         else if !stop then [Sent(f.items[0], f.done)]
         else if !kind.overwrite && r.connected then [Unlinked(f.items[0])] else [])
  }

  function Serviced(f: Flow, kind: Kind, r: Round): Flow
    requires Possible(r)
  {
    if kind.Download? then Downloaded(f, r.answers, r.grants) else Uploaded(f, r.acks, r.chunks)
  }

  predicate ItemDone(f: Flow) { f.pending == [] && (f.eof || Stopping(f)) }

  predicate Over(f: Flow) { !f.open && (f.items == [] || Stopping(f)) }

  function Finished(f: Flow): Flow { f.(log := f.log + [Transferred(!Stopping(f))]) }

  function Begun(f: Flow, r: Round): Flow
  {
    var g := f.(cancelled := f.cancelled || r.cancel);
    if !g.open && !Stopping(g) && g.items != [] then Opened(g, r) else g
  }

  function Worked(f: Flow, kind: Kind, r: Round): Flow
    requires Possible(r) && (f.open ==> f.items != [])
  {
    if !f.open then f else
    var g := Serviced(f, kind, r);
    ServicedKeepsItems(f, kind, r);
    if ItemDone(g) then Closed(g, kind, r) else g
  }

  function Ended(f: Flow): Flow { if Over(f) then Finished(f) else f }

  /** One call of serviceTransfer, after a Cancel that came first. */
  function Step(f: Flow, kind: Kind, r: Round): Flow
    requires Possible(r) && (f.open ==> f.items != [])
  {
    Ended(Worked(Begun(f, r), kind, r))
  }

  /** What failAll makes of a transfer under way: the file is closed whatever is in flight, and the transfer has failed. */
  function Aborted(f: Flow, kind: Kind, r: Round): Flow
    requires f.open ==> f.items != []
  {
    var g := f.(failed := true);
    Finished(if g.open then Closed(g, kind, r) else g)
  }

  predicate SameItem(f: Flow, g: Flow) { f.items == g.items && f.open == g.open && f.log == g.log && f.cancelled == g.cancelled }

  lemma {:induction false} AnsweredKeepsItems(f: Flow, answers: seq<Answer>)
    requires Stored(answers)
    ensures SameItem(f, AllAnswered(f, answers))
    decreases |answers|
  {
    if !(f.pending == [] || answers == [] || answers[0].Again?) {
      AnsweredKeepsItems(Answered(f, answers[0]), answers[1..]);
    }
  }

  lemma {:induction false} AskedKeepsItems(f: Flow, grants: seq<Grant>)
    requires |grants| + |f.pending| >= MAX_IN_FLIGHT
    ensures SameItem(f, AllAsked(f, grants))
    decreases |grants|
  {
    if WantsMore(f) && !grants[0].NoRead? {
      AskedKeepsItems(Asked(f, grants[0]), grants[1..]);
    }
  }

  lemma {:induction false} AckedKeepsItems(f: Flow, acks: seq<Ack>)
    ensures SameItem(f, AllAcked(f, acks))
    decreases |acks|
  {
    if !(f.pending == [] || acks == [] || acks[0].Later?) {
      AckedKeepsItems(Acked(f, acks[0]), acks[1..]);
    }
  }

  lemma {:induction false} PushedKeepsItems(f: Flow, chunks: seq<Chunk>)
    requires |chunks| + |f.pending| >= MAX_IN_FLIGHT && Taken(chunks)
    ensures SameItem(f, AllPushed(f, chunks))
    decreases |chunks|
  {
    if HasMore(f) && Pushes(chunks[0]) {
      PushedKeepsItems(Pushed(f, chunks[0]), chunks[1..]);
    }
  }

  lemma ServicedKeepsItems(f: Flow, kind: Kind, r: Round)
    requires Possible(r)
    ensures SameItem(f, Serviced(f, kind, r))
  {
    hide AllAnswered, AllAsked, AllAcked, AllPushed;
    AnsweredKeepsItems(f, r.answers);
    AskedKeepsItems(Restarted(AllAnswered(f, r.answers)), r.grants);
    AckedKeepsItems(f, r.acks);
    PushedKeepsItems(AllAcked(f, r.acks), r.chunks);
  }

  // --- In place ---

  /** The engine's work on the transfer it points to, which it updates member by member. */
  class Worker {
    const kind: Kind
    var transfer: Flow

    constructor (kind: Kind, items: seq<Item>)
      ensures this.kind == kind && transfer == Start(items)
    {
      this.kind, transfer := kind, Start(items);
    }

    method ServiceDownload(answers: seq<Answer>, grants: seq<Grant>)
      requires Stored(answers) && |grants| >= MAX_IN_FLIGHT
      modifies `transfer
      ensures transfer == Downloaded(old(transfer), answers, grants)
    {
      ghost var before := transfer;
      var k := 0;
      // Answers come back in the order asked
      while transfer.pending != [] && k < |answers| && !answers[k].Again?
        invariant 0 <= k <= |answers|
        invariant AllAnswered(before, answers) == AllAnswered(transfer, answers[k..])
        decreases |answers| - k
      {
        var answer := answers[k];
        var read := transfer.pending[0];
        assert answers[k..][1..] == answers[k + 1..];
        k := k + 1;
        transfer := transfer.(pending := transfer.pending[1..]);
        if transfer.restart || transfer.cancelled || transfer.failed {
          continue;
        }
        if answer.Failure? {
          transfer := transfer.(failed := true);
          continue;
        }
        if answer.bytes == [] {
          transfer := transfer.(eof := true);
          continue;
        }
        assert answer in answers && answer.bytes[..|answer.bytes|] == answer.bytes;
        transfer := transfer.(done := transfer.done + answer.bytes[..answer.stored]);
        if answer.stored != |answer.bytes| {
          transfer := transfer.(failed := true);
          continue;
        }
        transfer := transfer.(bytes := transfer.bytes + |answer.bytes|,
                              itemBytes := transfer.itemBytes + |answer.bytes|);
        // A short answer leaves a gap before the next ones
        if |answer.bytes| < read.length {
          transfer := transfer.(restart := true);
        }
      }
      if transfer.restart && transfer.pending == [] {
        transfer := transfer.(restart := false, requested := transfer.itemBytes);
        transfer := transfer.(position := transfer.itemBytes);
      }
      AskMore(grants);
    }

    method AskMore(grants: seq<Grant>)
      requires |grants| + |transfer.pending| >= MAX_IN_FLIGHT
      modifies `transfer
      ensures transfer == AllAsked(old(transfer), grants)
    {
      ghost var before := transfer;
      var k := 0;
      while !transfer.eof && !transfer.restart && !transfer.cancelled && !transfer.failed
            && |transfer.pending| < MAX_IN_FLIGHT
        invariant 0 <= k <= |grants| && |grants| - k + |transfer.pending| >= MAX_IN_FLIGHT
        invariant AllAsked(before, grants) == AllAsked(transfer, grants[k..])
        decreases |grants| - k
      {
        var grant := grants[k];
        assert grants[k..][1..] == grants[k + 1..];
        k := k + 1;
        if grant.NoRead? {
          transfer := transfer.(failed := true);
          return;
        }
        transfer := transfer.(pending := transfer.pending + [Request(transfer.position, grant.length)],
                              position := transfer.position + grant.length);
        transfer := transfer.(requested := transfer.requested + grant.length);
      }
    }

    method ServiceUpload(acks: seq<Ack>, chunks: seq<Chunk>)
      requires |chunks| >= MAX_IN_FLIGHT && Taken(chunks)
      modifies `transfer
      ensures transfer == Uploaded(old(transfer), acks, chunks)
    {
      ghost var before := transfer;
      var k := 0;
      while transfer.pending != [] && k < |acks| && !acks[k].Later?
        invariant 0 <= k <= |acks|
        invariant AllAcked(before, acks) == AllAcked(transfer, acks[k..])
        decreases |acks| - k
      {
        var ack := acks[k];
        assert acks[k..][1..] == acks[k + 1..];
        k := k + 1;
        transfer := transfer.(pending := transfer.pending[1..]);
        if ack.Refused? {
          transfer := transfer.(failed := true);
          continue;
        }
        transfer := transfer.(bytes := transfer.bytes + ack.bytes, itemBytes := transfer.itemBytes + ack.bytes);
      }
      PushMore(chunks);
    }

    method PushMore(chunks: seq<Chunk>)
      requires |chunks| + |transfer.pending| >= MAX_IN_FLIGHT && Taken(chunks)
      modifies `transfer
      ensures transfer == AllPushed(old(transfer), chunks)
    {
      ghost var before := transfer;
      var k := 0;
      while !transfer.eof && !transfer.cancelled && !transfer.failed && |transfer.pending| < MAX_IN_FLIGHT
        invariant 0 <= k <= |chunks| && |chunks| - k + |transfer.pending| >= MAX_IN_FLIGHT
        invariant AllPushed(before, chunks) == AllPushed(transfer, chunks[k..])
        decreases |chunks| - k
      {
        var chunk := chunks[k];
        assert chunks[k..][1..] == chunks[k + 1..];
        k := k + 1;
        if chunk.Unreadable? {
          transfer := transfer.(failed := true);
          return;
        }
        if chunk.bytes == [] {
          transfer := transfer.(eof := true);
          return;
        }
        var from := transfer.position;
        transfer := transfer.(position := transfer.position + |chunk.bytes|);
        if chunk.taken < 0 {
          transfer := transfer.(failed := true);
          return;
        }
        transfer := transfer.(done := transfer.done + chunk.bytes[..chunk.taken]);
        // The server's limit can be below the chunk size
        if chunk.taken < |chunk.bytes| {
          transfer := transfer.(position := transfer.position - (|chunk.bytes| - chunk.taken));
        }
        transfer := transfer.(pending := transfer.pending + [Request(from, chunk.taken)]);
      }
    }

    method CloseItem(r: Round)
      requires transfer.open && transfer.items != []
      modifies `transfer
      ensures transfer == Closed(old(transfer), kind, r)
    {
      transfer := transfer.(pending := []);
      if !r.closes {
        transfer := transfer.(failed := true);
      }
      var stop := transfer.failed || transfer.cancelled;
      if kind.Upload? {
        if !stop {
          transfer := transfer.(log := transfer.log + [Sent(transfer.items[0], transfer.done)]);
        } else if !kind.overwrite && r.connected {
          transfer := transfer.(log := transfer.log + [Unlinked(transfer.items[0])]);
        }
      } else if !stop {
        if r.commits {
          transfer := transfer.(log := transfer.log + [Saved(transfer.items[0], transfer.done)]);
        } else {
          transfer := transfer.(failed := true);
        }
      }
      transfer := transfer.(open := false, items := transfer.items[1..]);
    }

    method OpenItem(r: Round)
      requires !transfer.open && transfer.items != []
      modifies `transfer
      ensures transfer == Opened(old(transfer), r)
    {
      transfer := transfer.(done := [], position := 0, itemBytes := 0, requested := 0, eof := false, restart := false);
      transfer := transfer.(open := r.opens);
      if !r.opens {
        transfer := transfer.(failed := true);
      }
    }

    method ServiceItem(r: Round)
      requires Possible(r) && transfer.open && transfer.items != []
      modifies `transfer
      ensures transfer == Worked(old(transfer), kind, r)
    {
      hide Downloaded, Uploaded, Closed;
      ServicedKeepsItems(transfer, kind, r);
      if kind.Download? {
        ServiceDownload(r.answers, r.grants);
      } else {
        ServiceUpload(r.acks, r.chunks);
      }
      if transfer.pending == [] && (transfer.eof || transfer.cancelled || transfer.failed) {
        CloseItem(r);
      }
    }

    /** What failAll does to the transfer. */
    method Fail(r: Round)
      requires transfer.open ==> transfer.items != []
      modifies `transfer
      ensures transfer == Aborted(old(transfer), kind, r)
      ensures old(transfer.log) < transfer.log && transfer.log[|transfer.log| - 1] == Transferred(false)
      ensures forall e :: e in transfer.log && e !in old(transfer.log) ==> e.Unlinked? || e == Transferred(false)
    {
      transfer := transfer.(failed := true);
      if transfer.open {
        CloseItem(r);
      }
      transfer := transfer.(log := transfer.log + [Transferred(false)]);
    }

    /** serviceTransfer, once the files of the transfer are known. */
    method Service(r: Round)
      requires Possible(r) && (transfer.open ==> transfer.items != [])
      modifies `transfer
      ensures transfer == Step(old(transfer), kind, r)
    {
      hide Worked, Opened;
      if r.cancel {
        transfer := transfer.(cancelled := true);
      }
      if !transfer.open && !transfer.cancelled && !transfer.failed && transfer.items != [] {
        OpenItem(r);
      }
      assert transfer == Begun(old(transfer), r);
      OpenedHasItems(old(transfer), r);
      if transfer.open {
        ServiceItem(r);
      } else {
        NothingOpen(transfer, kind, r);
      }
      if !transfer.open && (transfer.items == [] || transfer.cancelled || transfer.failed) {
        transfer := transfer.(log := transfer.log + [Transferred(!transfer.failed && !transfer.cancelled)]);
      }
    }
  }

  lemma OpenedHasItems(f: Flow, r: Round)
    requires f.open ==> f.items != []
    ensures Begun(f, r).open ==> Begun(f, r).items != []
  {
  }

  lemma NothingOpen(f: Flow, kind: Kind, r: Round)
    requires Possible(r) && !f.open
    ensures Worked(f, kind, r) == f
  {
  }
}
