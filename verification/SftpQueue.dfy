/** The life of the SFTP engine's requests: queued, run or made a transfer, cancelled or failed, and answered. */
module SftpQueue {

  datatype Kind = List | Download | Upload | MakeDirectory | Remove | Rename | Cancel

  datatype Request = Request(kind: Kind, id: int)

  datatype Callback = Listed | Done | Transferred

  /** A callback that was called for the request with this id. */
  datatype Answer = Answer(id: int, callback: Callback)

  datatype Waiting = Waiting(request: Request, cancelled: bool)

  datatype Engine = Engine(requests: seq<Request>, transfers: seq<Waiting>, answers: seq<Answer>)

  predicate IsTransfer(r: Request) { r.kind.Download? || r.kind.Upload? }

  /** The callback that answers a request of this kind. */
  function CallbackOf(kind: Kind): Callback
  {
    match kind
    case List => Listed
    case Download => Transferred
    case Upload => Transferred
    case _ => Done
  }

  function AnswerTo(r: Request): Answer { Answer(r.id, CallbackOf(r.kind)) }

  // --- The operations ---

  function Added(e: Engine, r: Request): Engine { e.(requests := e.requests + [r]) }

  predicate Matches(id: int, w: Waiting) { id == 0 || w.request.id == id }

  function Without(transfers: seq<Waiting>, i: nat): seq<Waiting>
    requires i < |transfers|
  {
    transfers[..i] + transfers[i + 1..]
  }

  /** Cancels the transfers before the n-th, the last first. Only the first has started, the rest just go. */
  function CancelledBelow(e: Engine, id: int, n: nat): Engine
    requires n <= |e.transfers|
    decreases n
  {
    if n == 0 then e else
    var i := n - 1;
    var w := e.transfers[i];
    if !Matches(id, w) then CancelledBelow(e, id, i)
    else if i > 0 then
      CancelledBelow(e.(answers := e.answers + [Answer(w.request.id, Transferred)], transfers := Without(e.transfers, i)), id, i)
    else e.(transfers := [w.(cancelled := true)] + e.transfers[1..])
  }

  function Ran(e: Engine, r: Request): Engine
  {
    if r.kind.Cancel? then CancelledBelow(e, r.id, |e.transfers|)
    else if IsTransfer(r) then e.(transfers := e.transfers + [Waiting(r, false)])
    else e.(answers := e.answers + [AnswerTo(r)])
  }

  function RanAll(e: Engine): Engine
    decreases |e.requests|
  {
    if e.requests == [] then e else
    RanKeepsRequests(e.(requests := e.requests[1..]), e.requests[0]);
    RanAll(Ran(e.(requests := e.requests[1..]), e.requests[0]))
  }

  function FirstEnded(e: Engine): Engine
    requires e.transfers != []
  {
    e.(transfers := e.transfers[1..], answers := e.answers + [Answer(e.transfers[0].request.id, Transferred)])
  }

  /** service(). ends says whether the first transfer is over after its turn. */
  function Serviced(e: Engine, ends: bool): Engine
  {
    var f := RanAll(e);
    if f.transfers != [] && ends then FirstEnded(f) else f
  }

  function FailedRequests(e: Engine): Engine
    decreases |e.requests|
  {
    if e.requests == [] then e else
    var r := e.requests[0];
    FailedRequests(e.(requests := e.requests[1..],
                      answers := if r.kind.Cancel? then e.answers else e.answers + [AnswerTo(r)]))
  }

  function FailedTransfers(e: Engine): Engine
    decreases |e.transfers|
  {
    if e.transfers == [] then e else FailedTransfers(FirstEnded(e))
  }

  function Failed(e: Engine): Engine { FailedTransfers(FailedRequests(e)) }

  lemma {:induction false} CancelKeepsRequests(e: Engine, id: int, n: nat)
    requires n <= |e.transfers|
    ensures CancelledBelow(e, id, n).requests == e.requests
    ensures e.answers <= CancelledBelow(e, id, n).answers
    decreases n
  {
    if n > 0 {
      var i := n - 1;
      var w := e.transfers[i];
      if !Matches(id, w) {
        CancelKeepsRequests(e, id, i);
      } else if i > 0 {
        CancelKeepsRequests(
          e.(answers := e.answers + [Answer(w.request.id, Transferred)], transfers := Without(e.transfers, i)), id, i);
      }
    }
  }

  lemma RanKeepsRequests(e: Engine, r: Request)
    ensures Ran(e, r).requests == e.requests && e.answers <= Ran(e, r).answers
  {
    CancelKeepsRequests(e, r.id, |e.transfers|);
  }

  // --- What is owed ---

  /** The answers these requests are owed. A Cancel is owed none. */
  function Owed(requests: seq<Request>): multiset<Answer>
  {
    if requests == [] then multiset{} else
    Owed(requests[1..]) + if requests[0].kind.Cancel? then multiset{} else multiset{AnswerTo(requests[0])}
  }

  function OwedTransfers(transfers: seq<Waiting>): multiset<Answer>
  {
    if transfers == [] then multiset{} else
    OwedTransfers(transfers[1..]) + multiset{Answer(transfers[0].request.id, Transferred)}
  }

  /** Answers given and answers owed. */
  function Account(e: Engine): multiset<Answer>
  {
    Owed(e.requests) + OwedTransfers(e.transfers) + multiset(e.answers)
  }

  lemma {:induction false} OwedMore(requests: seq<Request>, r: Request)
    ensures Owed(requests + [r]) == Owed(requests) + Owed([r])
  {
    if requests != [] {
      OwedMore(requests[1..], r);
      assert (requests + [r])[1..] == requests[1..] + [r];
    }
  }

  lemma OwedFirst(w: Waiting, rest: seq<Waiting>)
    ensures OwedTransfers([w] + rest) == OwedTransfers(rest) + multiset{Answer(w.request.id, Transferred)}
  {
    assert ([w] + rest)[1..] == rest;
  }

  lemma Shuffle(a: multiset<Answer>, b: multiset<Answer>, c: multiset<Answer>)
    ensures a + b + c == a + c + b
  {
  }

  lemma {:induction false} OwedTransfersSplit(a: seq<Waiting>, b: seq<Waiting>)
    ensures OwedTransfers(a + b) == OwedTransfers(a) + OwedTransfers(b)
  {
    if a == [] {
      assert a + b == b;
    } else {
      hide OwedTransfers;
      var rest := a[1..];
      assert a == [a[0]] + rest && a + b == [a[0]] + (rest + b);
      OwedTransfersSplit(rest, b);
      OwedFirst(a[0], rest);
      OwedFirst(a[0], rest + b);
      Shuffle(OwedTransfers(rest), OwedTransfers(b), multiset{Answer(a[0].request.id, Transferred)});
    }
  }

  lemma OwedWithout(transfers: seq<Waiting>, i: nat)
    requires i < |transfers|
    ensures OwedTransfers(transfers)
         == OwedTransfers(Without(transfers, i)) + multiset{Answer(transfers[i].request.id, Transferred)}
  {
    hide OwedTransfers, Without;
    var before, w, after := Around(transfers, i);
    OwedTransfersSplit(before, [w] + after);
    OwedTransfersSplit(before, after);
    OwedFirst(w, after);
  }

  /** What is before one of the transfers and behind it. */
  lemma Around(transfers: seq<Waiting>, i: nat) returns (before: seq<Waiting>, w: Waiting, after: seq<Waiting>)
    requires i < |transfers|
    ensures before == transfers[..i] && w == transfers[i] && after == transfers[i + 1..]
    ensures transfers == before + ([w] + after) && transfers[i..] == [w] + after && transfers[..i + 1] == before + [w]
    ensures Without(transfers, i) == before + after
  {
    before, w, after := transfers[..i], transfers[i], transfers[i + 1..];
  }

  lemma {:induction false} CancelKeepsAccount(e: Engine, id: int, n: nat)
    requires n <= |e.transfers|
    ensures Account(CancelledBelow(e, id, n)) == Account(e)
    decreases n
  {
    if n == 1 {
      CancelFirstKeepsAccount(e, id);
    } else if n > 1 {
      CancelLast(e, id, n);
      DroppingKeepsAccount(e, n - 1);
      hide Account, CancelledBelow, Matches, Dropping;
      CancelKeepsAccount(if Matches(id, e.transfers[n - 1]) then Dropping(e, n - 1) else e, id, n - 1);
    }
  }

  lemma CancelFirstKeepsAccount(e: Engine, id: int)
    requires e.transfers != []
    ensures Account(CancelledBelow(e, id, 1)) == Account(e)
  {
    hide Matches, Owed;
    var w := e.transfers[0];
    assert CancelledBelow(e, id, 0) == e;
    assert e.transfers == [w] + e.transfers[1..];
    OwedFirst(w, e.transfers[1..]);
    OwedFirst(w.(cancelled := true), e.transfers[1..]);
    hide OwedTransfers;
  }

  lemma DroppingKeepsAccount(e: Engine, i: nat)
    requires i < |e.transfers|
    ensures Account(Dropping(e, i)) == Account(e)
  {
    hide Owed, OwedTransfers, Without;
    OwedWithout(e.transfers, i);
  }

  lemma RanKeepsAccount(e: Engine, r: Request)
    ensures Account(Ran(e, r)) == Account(e) + Owed([r])
  {
    OwedOne(r);
    hide Owed, OwedTransfers, CancelledBelow;
    if r.kind.Cancel? {
      hide Account;
      CancelKeepsAccount(e, r.id, |e.transfers|);
    } else if IsTransfer(r) {
      OwedTransfersSplit(e.transfers, [Waiting(r, false)]);
      OwedTransfersOne(Waiting(r, false));
    }
  }

  lemma OwedOne(r: Request)
    ensures Owed([r]) == if r.kind.Cancel? then multiset{} else multiset{AnswerTo(r)}
  {
    assert [r][1..] == [];
  }

  lemma OwedTransfersOne(w: Waiting)
    ensures OwedTransfers([w]) == multiset{Answer(w.request.id, Transferred)}
  {
    assert [w][1..] == [];
  }

  lemma {:induction false} RanAllKeepsAccount(e: Engine)
    ensures Account(RanAll(e)) == Account(e) && RanAll(e).requests == [] && e.answers <= RanAll(e).answers
    decreases |e.requests|
  {
    if e.requests != [] {
      var rest := e.(requests := e.requests[1..]);
      RanKeepsRequests(rest, e.requests[0]);
      RanKeepsAccount(rest, e.requests[0]);
      assert Owed([e.requests[0]]) + Owed(rest.requests) == Owed(e.requests);
      hide Ran;
      RanAllKeepsAccount(Ran(rest, e.requests[0]));
    }
  }

  lemma EndedKeepsAccount(e: Engine)
    requires e.transfers != []
    ensures Account(FirstEnded(e)) == Account(e)
  {
  }

  lemma {:induction false} FailedKeepsAccount(e: Engine)
    ensures Account(Failed(e)) == Account(e) && Failed(e).requests == [] && Failed(e).transfers == []
    ensures e.answers <= Failed(e).answers
  {
    FailedRequestsKeep(e);
    FailedTransfersKeep(FailedRequests(e));
  }

  lemma {:induction false} FailedRequestsKeep(e: Engine)
    ensures Account(FailedRequests(e)) == Account(e) && FailedRequests(e).requests == []
    ensures e.answers <= FailedRequests(e).answers
    decreases |e.requests|
  {
    if e.requests != [] {
      var r := e.requests[0];
      FailedRequestsKeep(e.(requests := e.requests[1..],
                            answers := if r.kind.Cancel? then e.answers else e.answers + [AnswerTo(r)]));
    }
  }

  lemma {:induction false} FailedTransfersKeep(e: Engine)
    ensures Account(FailedTransfers(e)) == Account(e) && FailedTransfers(e).transfers == []
    ensures FailedTransfers(e).requests == e.requests && e.answers <= FailedTransfers(e).answers
    decreases |e.transfers|
  {
    if e.transfers != [] {
      EndedKeepsAccount(e);
      FailedTransfersKeep(FirstEnded(e));
    }
  }

  // --- Which transfers a Cancel takes ---

  /** All but the matching ones. */
  function Others(transfers: seq<Waiting>, id: int): seq<Waiting>
  {
    if transfers == [] then [] else
    var n := |transfers| - 1;
    Others(transfers[..n], id) + if Matches(id, transfers[n]) then [] else [transfers[n]]
  }

  lemma {:induction false} OthersSplit(a: seq<Waiting>, b: seq<Waiting>, id: int)
    ensures Others(a + b, id) == Others(a, id) + Others(b, id)
  {
    if b == [] {
      assert a + b == a;
    } else {
      var n := |b| - 1;
      OthersSplit(a, b[..n], id);
      assert (a + b)[..|a| + n] == a + b[..n];
    }
  }

  /** The first is only marked, every other that matches goes, the rest stay as they are in their order. */
  function AfterCancel(transfers: seq<Waiting>, id: int): seq<Waiting>
  {
    if transfers == [] then [] else
    [if Matches(id, transfers[0]) then transfers[0].(cancelled := true) else transfers[0]] + Others(transfers[1..], id)
  }

  /** One more transfer for AfterCancel to look at. */
  lemma CancelMore(transfers: seq<Waiting>, w: Waiting, id: int)
    requires transfers != []
    ensures AfterCancel(transfers + [w], id) == AfterCancel(transfers, id) + if Matches(id, w) then [] else [w]
  {
    assert (transfers + [w])[1..] == transfers[1..] + [w];
    OthersSplit(transfers[1..], [w], id);
    assert [w][..0] == [] && Others([], id) == [];
  }

  lemma {:induction false} CancelTakes(e: Engine, id: int, n: nat)
    requires n <= |e.transfers| && (n == 0 ==> e.transfers == [])
    ensures CancelledBelow(e, id, n).transfers == AfterCancel(e.transfers[..n], id) + e.transfers[n..]
    decreases n
  {
    hide AfterCancel, CancelledBelow, Without, Matches;
    if n == 0 {
      CancelNothing(e, id);
    } else if n == 1 {
      CancelFirst(e, id);
    } else {
      var i := n - 1;
      var head, w, tail := Around(e.transfers, i);
      CancelMore(head, w, id);
      CancelLast(e, id, n);
      if !Matches(id, w) {
        CancelTakes(e, id, i);
        Regroup(AfterCancel(head, id), [w], tail);
      } else {
        CancelTakes(Dropping(e, i), id, i);
        Rejoined(head, tail);
        assert AfterCancel(head, id) + [] == AfterCancel(head, id);
      }
    }
  }

  lemma CancelNothing(e: Engine, id: int)
    requires e.transfers == []
    ensures CancelledBelow(e, id, 0).transfers == AfterCancel(e.transfers[..0], id) + e.transfers[0..]
  {
  }

  lemma Regroup(a: seq<Waiting>, b: seq<Waiting>, c: seq<Waiting>)
    ensures a + b + c == a + (b + c)
  {
  }

  lemma Rejoined(a: seq<Waiting>, b: seq<Waiting>)
    ensures (a + b)[..|a|] == a && (a + b)[|a|..] == b
  {
  }

  /** One that waits is dropped with its answer. */
  function Dropping(e: Engine, i: nat): Engine
    requires i < |e.transfers|
  {
    e.(answers := e.answers + [Answer(e.transfers[i].request.id, Transferred)], transfers := Without(e.transfers, i))
  }

  lemma CancelLast(e: Engine, id: int, n: nat)
    requires 1 < n <= |e.transfers|
    ensures CancelledBelow(e, id, n) == CancelledBelow(if Matches(id, e.transfers[n - 1]) then Dropping(e, n - 1) else e, id, n - 1)
  {
    hide Matches, Without;
  }

  lemma CancelFirst(e: Engine, id: int)
    requires e.transfers != []
    ensures CancelledBelow(e, id, 1).transfers == AfterCancel(e.transfers[..1], id) + e.transfers[1..]
  {
    assert e.transfers[..1][1..] == [];
    assert CancelledBelow(e, id, 0) == e;
    assert e.transfers == [e.transfers[0]] + e.transfers[1..];
  }

  /** A Cancel, with 0 for all of them: what it leaves of the transfers. */
  lemma CancelLeaves(e: Engine, id: int)
    ensures Ran(e, Request(Cancel, id)).transfers == AfterCancel(e.transfers, id)
  {
    CancelTakes(e, id, |e.transfers|);
    assert e.transfers[..|e.transfers|] == e.transfers;
    assert AfterCancel(e.transfers, id) + [] == AfterCancel(e.transfers, id);
  }

  // --- Runs ---

  datatype Action = Add(request: Request) | Service(ends: bool) | FailAll

  function Next(e: Engine, a: Action): Engine
  {
    match a
    case Add(r) => Added(e, r)
    case Service(ends) => Serviced(e, ends)
    case FailAll => Failed(e)
  }

  function After(e: Engine, run: seq<Action>): Engine
  {
    if run == [] then e else Next(After(e, run[..|run| - 1]), run[|run| - 1])
  }

  /** The requests a run adds. */
  function AddedBy(run: seq<Action>): seq<Request>
  {
    if run == [] then [] else
    var last := run[|run| - 1];
    AddedBy(run[..|run| - 1]) + if last.Add? then [last.request] else []
  }

  function Empty(): Engine { Engine([], [], []) }

  lemma NextKeepsAccount(e: Engine, a: Action)
    ensures Account(Next(e, a)) == Account(e) + if a.Add? then Owed([a.request]) else multiset{}
    ensures e.answers <= Next(e, a).answers
  {
    hide Account;
    match a
    case Add(r) =>
      AddedAccount(e, r);
    case Service(ends) =>
      RanAllKeepsAccount(e);
      if RanAll(e).transfers != [] {
        EndedKeepsAccount(RanAll(e));
      }
    case FailAll =>
      FailedKeepsAccount(e);
  }

  lemma AddedAccount(e: Engine, r: Request)
    ensures Account(Added(e, r)) == Account(e) + Owed([r])
  {
    OwedMore(e.requests, r);
  }

  /** In every run each request is accounted for once: it has been answered by the callback of its kind, or waits to be. */
  lemma {:induction false} EachAnsweredOnce(run: seq<Action>)
    ensures Account(After(Empty(), run)) == Owed(AddedBy(run))
  {
    if run == [] {
      NothingOwed();
    } else {
      hide Account, Next;
      var before := run[..|run| - 1];
      EachAnsweredOnce(before);
      NextKeepsAccount(After(Empty(), before), run[|run| - 1]);
      if run[|run| - 1].Add? {
        OwedMore(AddedBy(before), run[|run| - 1].request);
      } else {
        assert AddedBy(before) + [] == AddedBy(before);
      }
    }
  }

  lemma NothingOwed()
    ensures Account(After(Empty(), [])) == Owed(AddedBy([]))
  {
    assert multiset(Empty().answers) == multiset{};
  }

  /** Answers are never more than requests, and once everything has been failed they are exactly one each. */
  lemma AllAnsweredInTheEnd(run: seq<Action>)
    ensures multiset(After(Empty(), run).answers) <= Owed(AddedBy(run))
    ensures multiset(Failed(After(Empty(), run)).answers) == Owed(AddedBy(run))
  {
    EachAnsweredOnce(run);
    FailedKeepsAccount(After(Empty(), run));
  }

  // --- In place ---

  class Queues {
    var requests: seq<Request>
    var transfers: seq<Waiting>
    var answers: seq<Answer>

    ghost function State(): Engine
      reads this
    {
      Engine(requests, transfers, answers)
    }

    constructor ()
      ensures State() == Empty()
    {
      requests, transfers, answers := [], [], [];
    }

    method Enqueue(request: Request)
      modifies `requests
      ensures State() == Added(old(State()), request)
    {
      requests := requests + [request];
    }

    method Call(id: int, callback: Callback)
      modifies `answers
      ensures answers == old(answers) + [Answer(id, callback)]
    {
      answers := answers + [Answer(id, callback)];
    }

    method Run(request: Request)
      modifies `transfers, `answers
      ensures State() == Ran(old(State()), request)
    {
      if request.kind.Cancel? {
        StopTransfers(request.id);
        return;
      }
      if request.kind.Download? || request.kind.Upload? {
        transfers := transfers + [Waiting(request, false)];
        return;
      }
      if request.kind.List? {
        Call(request.id, Listed);
      } else {
        Call(request.id, Done);
      }
    }

    method StopTransfers(id: int)
      modifies `transfers, `answers
      ensures State() == CancelledBelow(old(State()), id, |old(transfers)|)
    {
      ghost var before := State();
      var i := |transfers|;
      while i > 0
        invariant 0 <= i <= |transfers|
        invariant requests == old(requests)
        invariant CancelledBelow(before, id, |before.transfers|) == CancelledBelow(State(), id, i)
      {
        i := i - 1;
        var transfer := transfers[i];
        if id != 0 && transfer.request.id != id {
          continue;
        }
        // Only the first has started, the rest just go
        if i > 0 {
          Call(transfer.request.id, Transferred);
          transfers := transfers[..i] + transfers[i + 1..];
        } else {
          transfers := [transfer.(cancelled := true)] + transfers[1..];
        }
      }
    }

    method Serve(ends: bool)
      modifies this
      ensures State() == Serviced(old(State()), ends)
    {
      ghost var before := State();
      while requests != []
        invariant RanAll(before) == RanAll(State())
        decreases |requests|
      {
        var request := requests[0];
        requests := requests[1..];
        RanKeepsRequests(State(), request);
        Run(request);
      }
      if transfers != [] && ends {
        FinishFirst();
      }
    }

    method FinishFirst()
      requires transfers != []
      modifies `transfers, `answers
      ensures State() == FirstEnded(old(State()))
    {
      var id := transfers[0].request.id;
      transfers := transfers[1..];
      Call(id, Transferred);
    }

    method FailEverything()
      modifies this
      ensures State() == Failed(old(State()))
    {
      ghost var before := State();
      while requests != []
        invariant FailedRequests(before) == FailedRequests(State())
        decreases |requests|
      {
        var request := requests[0];
        requests := requests[1..];
        if request.kind.List? {
          Call(request.id, Listed);
        } else if request.kind.Download? || request.kind.Upload? {
          Call(request.id, Transferred);
        } else if !request.kind.Cancel? {
          Call(request.id, Done);
        }
      }
      ghost var between := State();
      while transfers != []
        invariant FailedTransfers(between) == FailedTransfers(State())
        decreases |transfers|
      {
        FinishFirst();
      }
    }
  }
}
