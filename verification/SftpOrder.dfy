/** The order in which the SFTP engine answers and moves what it is asked for. */
module SftpOrder {
  import opened SftpQueue

  // --- Requests that are answered at once ---

  predicate IsPlain(r: Request) { !IsTransfer(r) && !r.kind.Cancel? }

  /** Answers to other requests than transfers. */
  function PlainAnswers(answers: seq<Answer>): seq<Answer>
  {
    if answers == [] then [] else
    var n := |answers| - 1;
    PlainAnswers(answers[..n]) + if answers[n].callback.Transferred? then [] else [answers[n]]
  }

  /** And those owed, in the order of the requests. */
  function PlainOwed(requests: seq<Request>): seq<Answer>
  {
    if requests == [] then [] else
    var n := |requests| - 1;
    PlainOwed(requests[..n]) + if IsPlain(requests[n]) then [AnswerTo(requests[n])] else []
  }

  lemma PlainMore(answers: seq<Answer>, a: Answer)
    ensures PlainAnswers(answers + [a]) == PlainAnswers(answers) + if a.callback.Transferred? then [] else [a]
  {
    assert (answers + [a])[..|answers|] == answers;
  }

  lemma OwedOneMore(requests: seq<Request>, r: Request)
    ensures PlainOwed(requests + [r]) == PlainOwed(requests) + if IsPlain(r) then [AnswerTo(r)] else []
  {
    assert (requests + [r])[..|requests|] == requests;
  }

  lemma {:induction false} OwedFirst(r: Request, rest: seq<Request>)
    ensures PlainOwed([r] + rest) == (if IsPlain(r) then [AnswerTo(r)] else []) + PlainOwed(rest)
  {
    hide IsPlain, AnswerTo;
    if rest == [] {
      assert [r] + rest == [] + [r];
      OwedOneMore([], r);
    } else {
      var n := |rest| - 1;
      assert [r] + rest == ([r] + rest[..n]) + [rest[n]] && rest == rest[..n] + [rest[n]];
      OwedFirst(r, rest[..n]);
      OwedOneMore([r] + rest[..n], rest[n]);
      OwedOneMore(rest[..n], rest[n]);
    }
  }

  /** Answered so far, and owed. */
  function PlainInOrder(e: Engine): seq<Answer> { PlainAnswers(e.answers) + PlainOwed(e.requests) }

  lemma PlainIsNoTransfer(r: Request)
    ensures IsPlain(r) ==> !AnswerTo(r).callback.Transferred?
    ensures IsTransfer(r) ==> AnswerTo(r).callback.Transferred?
  {
  }

  lemma {:induction false} CancelsNoPlain(e: Engine, id: int, n: nat)
    requires n <= |e.transfers|
    ensures PlainAnswers(CancelledBelow(e, id, n).answers) == PlainAnswers(e.answers)
    decreases n
  {
    if n > 0 {
      var w := e.transfers[n - 1];
      PlainMore(e.answers, Answer(w.request.id, Transferred));
      if !Matches(id, w) {
        CancelsNoPlain(e, id, n - 1);
      } else if n > 1 {
        var f := e.(answers := e.answers + [Answer(w.request.id, Transferred)], transfers := Without(e.transfers, n - 1));
        CancelsNoPlain(f, id, n - 1);
      }
    }
  }

  lemma RanInOrder(e: Engine, r: Request)
    ensures PlainAnswers(Ran(e, r).answers) == PlainAnswers(e.answers) + if IsPlain(r) then [AnswerTo(r)] else []
  {
    PlainIsNoTransfer(r);
    PlainMore(e.answers, AnswerTo(r));
    CancelsNoPlain(e, r.id, |e.transfers|);
    hide CancelledBelow, PlainAnswers;
  }

  lemma {:induction false} RanAllInOrder(e: Engine)
    ensures PlainInOrder(RanAll(e)) == PlainInOrder(e)
    decreases |e.requests|
  {
    if e.requests != [] {
      var rest, r := e.(requests := e.requests[1..]), e.requests[0];
      assert e.requests == [r] + rest.requests;
      RanKeepsRequests(rest, r);
      RanInOrder(rest, r);
      OwedFirst(r, rest.requests);
      hide Ran, PlainAnswers, PlainOwed, IsPlain, AnswerTo;
      RanAllInOrder(Ran(rest, r));
    }
  }

  lemma EndedInOrder(e: Engine)
    requires e.transfers != []
    ensures PlainInOrder(FirstEnded(e)) == PlainInOrder(e)
  {
    PlainMore(e.answers, Answer(e.transfers[0].request.id, Transferred));
    hide PlainAnswers, PlainOwed;
  }

  lemma {:induction false} FailedRequestsInOrder(e: Engine)
    ensures PlainInOrder(FailedRequests(e)) == PlainInOrder(e)
    decreases |e.requests|
  {
    if e.requests != [] {
      FirstFailedInOrder(e);
      hide PlainInOrder, AnswerTo;
      FailedRequestsInOrder(FirstFailed(e));
    }
  }

  /** The first request failed. */
  function FirstFailed(e: Engine): Engine
    requires e.requests != []
  {
    var r := e.requests[0];
    e.(requests := e.requests[1..], answers := if r.kind.Cancel? then e.answers else e.answers + [AnswerTo(r)])
  }

  lemma FirstFailedInOrder(e: Engine)
    requires e.requests != []
    ensures PlainInOrder(FirstFailed(e)) == PlainInOrder(e)
  {
    hide PlainAnswers, PlainOwed, AnswerTo, IsTransfer, PlainInOrder, IsPlain;
    var r, rest := e.requests[0], e.requests[1..];
    FailedMore(e, r);
    assert e.requests == [r] + rest;
    OwedFirst(r, rest);
    var some := if IsPlain(r) then [AnswerTo(r)] else [];
    assert PlainInOrder(e) == PlainAnswers(e.answers) + (some + PlainOwed(rest)) by { Owing(e); }
    assert PlainInOrder(FirstFailed(e)) == (PlainAnswers(e.answers) + some) + PlainOwed(rest) by { Owing(FirstFailed(e)); }
  }

  lemma Owing(e: Engine)
    ensures PlainInOrder(e) == PlainAnswers(e.answers) + PlainOwed(e.requests)
  {
  }

  lemma FailedMore(e: Engine, r: Request)
    requires e.requests != [] && r == e.requests[0]
    ensures PlainAnswers(FirstFailed(e).answers) == PlainAnswers(e.answers) + if IsPlain(r) then [AnswerTo(r)] else []
  {
    PlainMore(e.answers, AnswerTo(r));
    PlainIsNoTransfer(r);
    hide PlainAnswers, AnswerTo;
  }

  lemma {:induction false} FailedTransfersInOrder(e: Engine)
    ensures PlainInOrder(FailedTransfers(e)) == PlainInOrder(e)
    decreases |e.transfers|
  {
    if e.transfers != [] {
      EndedInOrder(e);
      hide PlainInOrder;
      FailedTransfersInOrder(FirstEnded(e));
    }
  }

  lemma NextInOrder(e: Engine, a: Action)
    ensures PlainInOrder(Next(e, a)) == PlainInOrder(e) + if a.Add? then PlainOwed([a.request]) else []
  {
    match a
    case Add(r) =>
      OwedOneMore(e.requests, r);
      OwedOneMore([], r);
      assert [] + [r] == [r];
    case Service(ends) =>
      RanAllInOrder(e);
      if RanAll(e).transfers != [] {
        EndedInOrder(RanAll(e));
      }
      hide PlainInOrder, RanAll, FirstEnded;
    case FailAll =>
      FailedRequestsInOrder(e);
      FailedTransfersInOrder(FailedRequests(e));
      hide PlainInOrder, FailedRequests, FailedTransfers;
  }

  /** Listings, removals and the like are answered in the order they were asked for, in any run. */
  lemma {:induction false} AnsweredInOrder(run: seq<Action>)
    ensures PlainInOrder(After(Empty(), run)) == PlainOwed(AddedBy(run))
  {
    if run != [] {
      var before, last := run[..|run| - 1], run[|run| - 1];
      AnsweredInOrder(before);
      NextInOrder(After(Empty(), before), last);
      if last.Add? {
        OwedOneMore(AddedBy(before), last.request);
        OwedOneMore([], last.request);
        assert [] + [last.request] == [last.request];
      }
      hide PlainInOrder, PlainOwed, Next;
      assert AddedBy(before) + [] == AddedBy(before);
    }
  }

  // --- Transfers ---

  /** What is left of b without some of its requests. */
  predicate Within(a: seq<Request>, b: seq<Request>)
    decreases |b|
  {
    a == [] || (b != [] && (Within(a, b[..|b| - 1])
                            || (a[|a| - 1] == b[|b| - 1] && Within(a[..|a| - 1], b[..|b| - 1]))))
  }

  lemma {:induction false} WithinItself(a: seq<Request>)
    ensures Within(a, a)
  {
    if a != [] {
      WithinItself(a[..|a| - 1]);
    }
  }

  lemma WithinMore(a: seq<Request>, b: seq<Request>, r: Request)
    requires Within(a, b)
    ensures Within(a + [r], b + [r]) && Within(a, b + [r])
  {
    assert (a + [r])[..|a|] == a && (b + [r])[..|b|] == b;
  }

  lemma {:induction false} WithinAppended(a: seq<Request>, b: seq<Request>, c: seq<Request>)
    requires Within(a, b)
    ensures Within(a + c, b + c)
    decreases |c|
  {
    if c == [] {
      assert a + c == a && b + c == b;
    } else {
      var n := |c| - 1;
      WithinAppended(a, b, c[..n]);
      WithinMore(a + c[..n], b + c[..n], c[n]);
      assert a + c == (a + c[..n]) + [c[n]] && b + c == (b + c[..n]) + [c[n]];
    }
  }

  lemma {:induction false} WithinOnwards(a: seq<Request>, b: seq<Request>, c: seq<Request>)
    requires Within(a, b) && Within(b, c)
    ensures Within(a, c)
    decreases |c|
  {
    if a != [] {
      assert b != [] && c != [];
      var c' := c[..|c| - 1];
      if Within(b, c') {
        WithinOnwards(a, b, c');
      } else if Within(a, b[..|b| - 1]) {
        WithinOnwards(a, b[..|b| - 1], c');
      } else {
        WithinOnwards(a[..|a| - 1], b[..|b| - 1], c');
      }
    }
  }

  function Asked(transfers: seq<Waiting>): (r: seq<Request>)
    ensures |r| == |transfers|
  {
    seq(|transfers|, i requires 0 <= i < |transfers| => transfers[i].request)
  }

  /** The transfers among requests. */
  function TransfersOf(requests: seq<Request>): seq<Request>
  {
    if requests == [] then [] else
    var n := |requests| - 1;
    TransfersOf(requests[..n]) + if IsTransfer(requests[n]) then [requests[n]] else []
  }

  lemma TransfersMore(requests: seq<Request>, r: Request)
    ensures TransfersOf(requests + [r]) == TransfersOf(requests) + if IsTransfer(r) then [r] else []
  {
    assert (requests + [r])[..|requests|] == requests;
  }

  lemma {:induction false} TransfersFirst(r: Request, rest: seq<Request>)
    ensures TransfersOf([r] + rest) == (if IsTransfer(r) then [r] else []) + TransfersOf(rest)
  {
    hide IsTransfer;
    if rest == [] {
      assert [r] + rest == [] + [r];
      TransfersMore([], r);
    } else {
      var n := |rest| - 1;
      assert [r] + rest == ([r] + rest[..n]) + [rest[n]] && rest == rest[..n] + [rest[n]];
      TransfersFirst(r, rest[..n]);
      TransfersMore([r] + rest[..n], rest[n]);
      TransfersMore(rest[..n], rest[n]);
    }
  }

  /** The transfers that wait, and those still to be made from requests. */
  function Line(e: Engine): seq<Request> { Asked(e.transfers) + TransfersOf(e.requests) }

  lemma {:induction false} OthersWithin(transfers: seq<Waiting>, id: int)
    ensures Within(Asked(Others(transfers, id)), Asked(transfers))
  {
    if transfers != [] {
      var n := |transfers| - 1;
      OthersWithin(transfers[..n], id);
      hide Within;
      var others := Others(transfers[..n], id);
      WithinMore(Asked(others), Asked(transfers[..n]), transfers[n].request);
      assert Asked(transfers) == Asked(transfers[..n]) + [transfers[n].request];
      if Matches(id, transfers[n]) {
        assert Others(transfers, id) == others + [] == others;
      } else {
        assert Asked(others + [transfers[n]]) == Asked(others) + [transfers[n].request];
      }
    }
  }

  lemma {:induction false} WithinBehind(a: seq<Request>, b: seq<Request>, r: Request)
    requires Within(a, b)
    ensures Within([r] + a, [r] + b)
    decreases |b|
  {
    if a == [] {
      assert [r] + a == [] + [r];
      FirstWithin(r, b);
    } else {
      var b' := b[..|b| - 1];
      assert ([r] + b)[..|b|] == [r] + b' && ([r] + b)[|b|] == b[|b| - 1];
      assert ([r] + a)[..|a|] == [r] + a[..|a| - 1];
      if Within(a, b') {
        WithinBehind(a, b', r);
      } else {
        WithinBehind(a[..|a| - 1], b', r);
      }
    }
  }

  lemma {:induction false} FirstWithin(r: Request, b: seq<Request>)
    ensures Within([r], [r] + b)
    decreases |b|
  {
    if b == [] {
      assert [r] + b == [r];
      WithinItself([r]);
    } else {
      assert ([r] + b)[..|b|] == [r] + b[..|b| - 1];
      FirstWithin(r, b[..|b| - 1]);
    }
  }

  lemma AfterCancelWithin(transfers: seq<Waiting>, id: int)
    ensures Within(Asked(AfterCancel(transfers, id)), Asked(transfers))
  {
    if transfers == [] {
      WithinItself([]);
    } else {
      var first, rest := transfers[0], transfers[1..];
      var w := if Matches(id, first) then first.(cancelled := true) else first;
      var others := Others(rest, id);
      OthersWithin(rest, id);
      assert AfterCancel(transfers, id) == [w] + others;
      assert transfers == [first] + rest;
      AskedFirst(w, others);
      AskedFirst(first, rest);
      hide Within, Others, Matches, AfterCancel, Asked;
      WithinBehind(Asked(others), Asked(rest), first.request);
    }
  }

  lemma AskedFirst(w: Waiting, rest: seq<Waiting>)
    ensures Asked([w] + rest) == [w.request] + Asked(rest)
  {
  }

  lemma CancelIsOf(e: Engine, r: Request)
    requires r.kind.Cancel?
    ensures Ran(e, r).transfers == AfterCancel(e.transfers, r.id)
  {
    CancelLeaves(e, r.id);
  }

  lemma RanWithin(e: Engine, r: Request)
    ensures Within(Asked(Ran(e, r).transfers), Asked(e.transfers) + if IsTransfer(r) then [r] else [])
  {
    if r.kind.Cancel? {
      CancelIsOf(e, r);
      AfterCancelWithin(e.transfers, r.id);
      hide Within;
      assert Asked(e.transfers) + [] == Asked(e.transfers);
    } else {
      WithinItself(Asked(Ran(e, r).transfers));
      hide Within;
      if IsTransfer(r) {
        assert Asked(Ran(e, r).transfers) == Asked(e.transfers) + [r];
      } else {
        assert Asked(e.transfers) + [] == Asked(e.transfers);
      }
    }
  }

  lemma {:induction false} RanAllWithin(e: Engine)
    ensures Within(Line(RanAll(e)), Line(e))
    decreases |e.requests|
  {
    if e.requests == [] {
      WithinItself(Line(e));
    } else {
      var rest, r := e.(requests := e.requests[1..]), e.requests[0];
      assert e.requests == [r] + rest.requests;
      RanKeepsRequests(rest, r);
      RanWithin(rest, r);
      TransfersFirst(r, rest.requests);
      var some, more := if IsTransfer(r) then [r] else [], TransfersOf(rest.requests);
      hide Ran, Within, Asked, TransfersOf;
      WithinAppended(Asked(Ran(rest, r).transfers), Asked(e.transfers) + some, more);
      assert (Asked(e.transfers) + some) + more == Asked(e.transfers) + (some + more);
      RanAllWithin(Ran(rest, r));
      WithinOnwards(Line(RanAll(e)), Line(Ran(rest, r)), Line(e));
    }
  }

  lemma {:induction false} RestWithin(a: seq<Request>)
    requires a != []
    ensures Within(a[1..], a)
  {
    if |a| > 1 {
      RestWithin(a[..|a| - 1]);
      assert a[1..][..|a| - 2] == a[..|a| - 1][1..];
    }
  }

  lemma EndedWithin(e: Engine)
    requires e.transfers != []
    ensures Within(Line(FirstEnded(e)), Line(e))
  {
    RestWithin(Asked(e.transfers));
    assert Asked(e.transfers[1..]) == Asked(e.transfers)[1..];
    WithinAppended(Asked(e.transfers)[1..], Asked(e.transfers), TransfersOf(e.requests));
    hide Within;
  }

  lemma NextWithin(e: Engine, a: Action)
    ensures Within(Line(Next(e, a)), Line(e) + if a.Add? then TransfersOf([a.request]) else [])
  {
    match a
    case Add(r) =>
      TransfersMore(e.requests, r);
      TransfersMore([], r);
      assert [] + [r] == [r];
      WithinItself(Line(Next(e, a)));
      hide Within;
      assert Line(Next(e, a)) == Line(e) + TransfersOf([r]);
    case Service(ends) =>
      RanAllWithin(e);
      var f := RanAll(e);
      if f.transfers != [] && ends {
        EndedWithin(f);
        hide Within, Line, RanAll;
        WithinOnwards(Line(FirstEnded(f)), Line(f), Line(e));
      }
      hide Within;
      assert Line(e) + [] == Line(e);
    case FailAll =>
      FailedKeepsAccount(e);
      assert Line(Failed(e)) == [];
  }

  /** Transfers have their turn in the order they were asked for: those that wait are some of those asked for, in that
    * order, and the first of them is the one served. */
  lemma {:induction false} TransfersInOrder(run: seq<Action>)
    ensures Within(Line(After(Empty(), run)), TransfersOf(AddedBy(run)))
  {
    if run != [] {
      var before, last := run[..|run| - 1], run[|run| - 1];
      var e := After(Empty(), before);
      TransfersInOrder(before);
      NextWithin(e, last);
      var more := if last.Add? then TransfersOf([last.request]) else [];
      if last.Add? {
        TransfersMore(AddedBy(before), last.request);
        TransfersMore([], last.request);
        assert [] + [last.request] == [last.request];
      } else {
        assert AddedBy(before) + [] == AddedBy(before);
        assert TransfersOf(AddedBy(before)) + [] == TransfersOf(AddedBy(before));
      }
      assert TransfersOf(AddedBy(run)) == TransfersOf(AddedBy(before)) + more;
      WithinAppended(Line(e), TransfersOf(AddedBy(before)), more);
      hide Within, Line, TransfersOf, Next;
      WithinOnwards(Line(After(Empty(), run)), Line(e) + more, TransfersOf(AddedBy(run)));
    }
  }

  // --- How they end ---

  /** Requests are answered by the callback of their kind, transfers when they are over. */
  lemma AnsweredByKind(e: Engine, id: int)
    ensures Ran(e, Request(List, id)) == e.(answers := e.answers + [Answer(id, Listed)])
    ensures forall k | k == MakeDirectory || k == Remove || k == Rename ::
      Ran(e, Request(k, id)) == e.(answers := e.answers + [Answer(id, Done)])
    ensures forall k | k == Download || k == Upload ::
      Ran(e, Request(k, id)) == e.(transfers := e.transfers + [Waiting(Request(k, id), false)])
      && AnswerTo(Request(k, id)) == Answer(id, Transferred)
  {
  }

  /** Answers to so many of the transfers, in turn. */
  function InTurn(transfers: seq<Waiting>, n: nat): seq<Answer>
    requires n <= |transfers|
  {
    seq(n, i requires 0 <= i < n => Answer(transfers[i].request.id, Transferred))
  }

  /** The first service runs all requests. Each that ends a transfer answers the first and goes on with the next, until none
    * is left. */
  lemma {:induction false} ServedInTurn(e: Engine, n: nat)
    requires 1 <= n
    ensures var f, g := RanAll(e), After(e, seq(n, i => Service(true)));
      var m := if n <= |f.transfers| then n else |f.transfers|;
      g == Engine([], f.transfers[m..], f.answers + InTurn(f.transfers, m))
    ensures Serviced(e, false) == RanAll(e) && RanAll(e).requests == []
  {
    RanAllKeepsAccount(e);
    hide Account;
    var f, run := RanAll(e), seq(n, i => Service(true));
    var before := seq(n - 1, i => Service(true));
    assert run[..n - 1] == before && run[n - 1] == Service(true);
    if n == 1 {
      assert before == [] && After(e, before) == e;
      if f.transfers != [] {
        assert InTurn(f.transfers, 1) == [Answer(f.transfers[0].request.id, Transferred)];
      } else {
        assert f.transfers[0..] == [] && f.answers + InTurn(f.transfers, 0) == f.answers;
      }
    } else {
      ServedInTurn(e, n - 1);
      OneMoreServed(After(e, before), f.transfers, f.answers, if n - 1 <= |f.transfers| then n - 1 else |f.transfers|);
      hide Serviced, RanAll, InTurn;
    }
  }

  lemma OneMoreServed(g: Engine, transfers: seq<Waiting>, answers: seq<Answer>, n: nat)
    requires n <= |transfers| && g == Engine([], transfers[n..], answers + InTurn(transfers, n))
    ensures Serviced(g, true)
         == if n < |transfers| then Engine([], transfers[n + 1..], answers + InTurn(transfers, n + 1)) else g
  {
    assert RanAll(g) == g;
    if n < |transfers| {
      assert InTurn(transfers, n + 1) == InTurn(transfers, n) + [Answer(transfers[n].request.id, Transferred)];
      assert transfers[n..][1..] == transfers[n + 1..] && transfers[n..][0] == transfers[n];
    }
  }
}
