/** Cutting an instruction into datagrams and putting it together again from what arrives of them. */
module MoshFragments {
  import opened Endian
  import opened MoshTypes

  const MAX_DATAGRAM: nat := 1200
  const FRAGMENT_HEADER: nat := 10
  /** Nonce, timestamps and tag go around the header and the part. */
  const FRAGMENT_PAYLOAD: nat := MAX_DATAGRAM - 8 - 4 - 16 - FRAGMENT_HEADER
  const LAST_NUMBER: nat := 0x7fff
  const MAX_FRAGMENTS: nat := 8192

  datatype Fragment = Fragment(id: nat, number: nat, final: bool, part: Bytes)

  function Encode(f: Fragment): Bytes {
    BigEndian(f.id, 8) + BigEndian((if f.final then 0x8000 else 0) + f.number, 2) + f.part
  }

  function Decode(b: Bytes): Option<Fragment> {
    if |b| < FRAGMENT_HEADER then None
    else
      var combined := FromBigEndian(b[8..10]);
      Some(Fragment(FromBigEndian(b[..8]), combined % 0x8000, combined / 0x8000 % 2 == 1, b[10..]))
  }

  lemma HeaderRoundTrip(f: Fragment)
    requires f.id < U64 && f.number < 0x8000
    ensures Decode(Encode(f)) == Some(f)
  {
    PowSizes();
    var combined := (if f.final then 0x8000 else 0) + f.number;
    assert Pow256(2) == 256 * (256 * Pow256(0)) == 0x1_0000;
    BigEndianRoundTrip(f.id, 8);
    BigEndianRoundTrip(combined, 2);
    hide BigEndian, FromBigEndian;
    var b := Encode(f);
    assert b[..8] == BigEndian(f.id, 8) && b[8..10] == BigEndian(combined, 2) && b[10..] == f.part;
  }

  // --- Cutting ---

  function Part(payload: Bytes): Bytes {
    if |payload| <= FRAGMENT_PAYLOAD then payload else payload[..FRAGMENT_PAYLOAD]
  }

  function FragmentsFrom(id: nat, payload: Bytes, number: nat): seq<Fragment>
    decreases |payload|
  {
    var part := Part(payload);
    var rest := payload[|part|..];
    [Fragment(id, number, rest == [], part)]
    + if rest != [] && number + 1 < LAST_NUMBER then FragmentsFrom(id, rest, number + 1) else []
  }

  function Fragments(id: nat, payload: Bytes): seq<Fragment> { FragmentsFrom(id, payload, 0) }

  lemma CutOne(sent: seq<Fragment>, id: nat, payload: Bytes, number: nat)
    ensures var rest := payload[|Part(payload)|..];
      sent + FragmentsFrom(id, payload, number)
      == sent + [Fragment(id, number, rest == [], Part(payload))]
         + if rest != [] && number + 1 < LAST_NUMBER then FragmentsFrom(id, rest, number + 1) else []
  {
    hide Part;
  }

  /** The payloads of the datagrams an instruction goes out in. */
  method Cut(id: nat, payload: Bytes) returns (sent: seq<Fragment>)
    ensures sent == Fragments(id, payload)
  {
    sent := [];
    var rest, number := payload, 0;
    ghost var all := Fragments(id, payload);
    hide FragmentsFrom;
    while true
      invariant number < LAST_NUMBER
      invariant sent + FragmentsFrom(id, rest, number) == all
      decreases |rest|
    {
      CutOne(sent, id, rest, number);
      var part := Part(rest);
      rest := rest[|part|..];
      sent := sent + [Fragment(id, number, rest == [], part)];
      number := number + 1;
      if rest == [] || number >= LAST_NUMBER {
        assert sent + [] == sent;
        return;
      }
    }
  }

  /** No datagram is longer than 1200 bytes. */
  lemma {:induction false} DatagramsFit(id: nat, payload: Bytes, number: nat)
    ensures forall i :: 0 <= i < |FragmentsFrom(id, payload, number)| ==>
      8 + 4 + |Encode(FragmentsFrom(id, payload, number)[i])| + 16 <= MAX_DATAGRAM
    decreases |payload|
  {
    var part := Part(payload);
    if payload[|part|..] != [] && number + 1 < LAST_NUMBER {
      DatagramsFit(id, payload[|part|..], number + 1);
    }
    hide BigEndian;
  }

  function Concat(parts: seq<Bytes>): Bytes {
    if parts == [] then [] else parts[0] + Concat(parts[1..])
  }

  function Parts(fs: seq<Fragment>): (parts: seq<Bytes>)
    ensures |parts| == |fs|
  {
    seq(|fs|, i requires 0 <= i < |fs| => fs[i].part)
  }

  lemma PartsCons(f: Fragment, more: seq<Fragment>)
    ensures Concat(Parts([f] + more)) == f.part + Concat(Parts(more))
  {
    assert Parts([f] + more)[1..] == Parts(more);
  }

  predicate Numbered(fs: seq<Fragment>, id: nat, number: nat) {
    forall i :: 0 <= i < |fs| ==> fs[i].id == id && fs[i].number == number + i && (fs[i].final <==> i == |fs| - 1)
  }

  lemma NumberedCons(f: Fragment, more: seq<Fragment>, id: nat, number: nat)
    requires f.id == id && f.number == number && !f.final && more != [] && Numbered(more, id, number + 1)
    ensures Numbered([f] + more, id, number)
  {
  }

  /** The fragments are numbered in order, only the last is final, and their parts make up the payload, when it
    * needs no more numbers than there are. */
  lemma {:induction false} CutMakesUp(id: nat, payload: Bytes, number: nat)
    requires |payload| <= FRAGMENT_PAYLOAD * (LAST_NUMBER - number) && number < LAST_NUMBER
    ensures FragmentsFrom(id, payload, number) != [] && Numbered(FragmentsFrom(id, payload, number), id, number)
    ensures Concat(Parts(FragmentsFrom(id, payload, number))) == payload
    decreases |payload|
  {
    var part := Part(payload);
    var rest := payload[|part|..];
    var f := Fragment(id, number, rest == [], part);
    assert part + rest == payload;
    hide Parts, Concat;
    if rest != [] {
      CutMakesUp(id, rest, number + 1);
      var more := FragmentsFrom(id, rest, number + 1);
      PartsCons(f, more);
      NumberedCons(f, more, id, number);
    } else {
      PartsCons(f, []);
      NoParts();
      assert [f] + [] == [f];
    }
  }

  lemma NoParts()
    ensures Concat(Parts([])) == []
  {
  }

  // --- Putting together ---

  datatype Assembly = Assembly(id: nat, fragments: seq<Bytes>, arrived: seq<bool>, count: nat, total: int)

  function CountTrue(bits: seq<bool>): nat {
    if bits == [] then 0 else CountTrue(bits[..|bits| - 1]) + if Last(bits) then 1 else 0
  }

  function Resized<T>(s: seq<T>, n: nat, filler: T): (r: seq<T>)
    ensures |r| == n
  {
    if |s| >= n then s[..n] else s + seq(n - |s|, _ => filler)
  }

  /** With room for n fragments. */
  function Extended(a: Assembly, n: nat): (r: Assembly)
    requires |a.fragments| == |a.arrived|
    ensures |r.fragments| == |r.arrived| >= n && r.id == a.id
  {
    if |a.fragments| >= n then a
    else a.(fragments := Resized(a.fragments, n, []), arrived := Resized(a.arrived, n, false))
  }

  function Marked(a: Assembly, f: Fragment): (r: Assembly)
    requires |a.fragments| == |a.arrived| > f.number
    ensures r.id == a.id
  {
    if a.arrived[f.number] then a
    else a.(fragments := a.fragments[f.number := f.part], arrived := a.arrived[f.number := true], count := a.count + 1)
  }

  /** Once the last of n fragments is there. */
  function Ended(a: Assembly, n: nat): (r: Assembly)
    ensures r.id == a.id
  {
    var arrived := Resized(a.arrived, n, false);
    a.(total := n, fragments := Resized(a.fragments, n, []), arrived := arrived, count := CountTrue(arrived))
  }

  /** The state a fragment of this id is placed into. */
  function Turned(a: Assembly, id: nat): (r: Assembly)
    ensures r.id == id && (|a.fragments| == |a.arrived| ==> |r.fragments| == |r.arrived|)
  {
    if a.id == id then a else Assembly(id, [], [], 0, -1)
  }

  /** The fragment put in its place, before looking whether it is the last one missing. */
  function Placed(a: Assembly, f: Fragment): Assembly
    requires |a.fragments| == |a.arrived|
  {
    var marked := Marked(Extended(Turned(a, f.id), f.number + 1), f);
    if f.final then Ended(marked, f.number + 1) else marked
  }

  function Receive(a: Assembly, f: Fragment): (Assembly, Option<Bytes>)
    requires |a.fragments| == |a.arrived|
  {
    if f.number >= MAX_FRAGMENTS then (a, None)
    else
      var placed := Placed(a, f);
      if placed.count != placed.total then (placed, None)
      else (Assembly(placed.id, [], [], 0, -1), Some(Concat(placed.fragments)))
  }

  class Assembler {
    var assemblyId: nat
    var fragments: seq<Bytes>
    var fragmentArrived: seq<bool>
    var fragmentsArrived: nat
    var fragmentsTotal: int

    ghost function State(): Assembly
      reads this
    {
      Assembly(assemblyId, fragments, fragmentArrived, fragmentsArrived, fragmentsTotal)
    }

    ghost predicate Valid()
      reads this
    {
      |fragments| == |fragmentArrived|
    }

    constructor ()
      ensures State() == Assembly(U64 - 1, [], [], 0, -1)
    {
      assemblyId, fragments, fragmentArrived, fragmentsArrived, fragmentsTotal := U64 - 1, [], [], 0, -1;
    }

    method Place(f: Fragment)
      requires Valid()
      modifies this
      ensures Valid() && State() == Placed(old(State()), f)
    {
      hide Resized, CountTrue;
      var n := f.number + 1;
      if f.id != assemblyId {
        assemblyId := f.id;
        fragments, fragmentArrived := Resized([], n, []), Resized([], n, false);
        fragmentsArrived, fragmentsTotal := 0, -1;
      }
      if |fragments| < n {
        fragments, fragmentArrived := Resized(fragments, n, []), Resized(fragmentArrived, n, false);
      }
      if !fragmentArrived[f.number] {
        fragments, fragmentArrived := fragments[f.number := f.part], fragmentArrived[f.number := true];
        fragmentsArrived := fragmentsArrived + 1;
      }
      if f.final {
        fragmentsTotal := n;
        fragments, fragmentArrived := Resized(fragments, n, []), Resized(fragmentArrived, n, false);
        fragmentsArrived := CountTrue(fragmentArrived);
      }
    }

    method ReceiveFragment(f: Fragment) returns (payload: Option<Bytes>)
      requires Valid()
      modifies this
      ensures Valid() && (State(), payload) == Receive(old(State()), f)
    {
      hide Placed, Concat;
      if f.number >= MAX_FRAGMENTS {
        return None;
      }
      Place(f);
      if fragmentsArrived != fragmentsTotal {
        return None;
      }
      var compressed := Join();
      fragments, fragmentArrived, fragmentsArrived, fragmentsTotal := [], [], 0, -1;
      payload := Some(compressed);
    }

    method Join() returns (all: Bytes)
      ensures all == Concat(fragments)
    {
      all := [];
      for i := 0 to |fragments|
        invariant all + Concat(fragments[i..]) == Concat(fragments)
      {
        assert fragments[i..][1..] == fragments[i + 1..];
        assert all + (fragments[i] + Concat(fragments[i + 1..])) == (all + fragments[i]) + Concat(fragments[i + 1..]);
        all := all + fragments[i];
      }
      assert all + [] == all;
    }
  }

  // --- What is handed on ---

  /** arrived holds the numbers that came of the parts of one payload since the last time they were handed on. */
  ghost predicate Gathered(a: Assembly, parts: seq<Bytes>, arrived: set<nat>) {
    && Filled(a, parts, arrived)
    && a.total == (if |parts| - 1 in arrived then |parts| else -1)
    && (|parts| - 1 in arrived ==> |a.arrived| == |parts|)
  }

  ghost predicate Filled(a: Assembly, parts: seq<Bytes>, arrived: set<nat>) {
    && |a.fragments| == |a.arrived| <= |parts|
    && (forall i :: i in arrived ==> i < |a.arrived|)
    && (forall i :: 0 <= i < |a.arrived| ==> (a.arrived[i] <==> i in arrived))
    && (forall i :: i in arrived ==> a.fragments[i] == parts[i])
    && a.count == |arrived|
  }

  predicate IsPart(f: Fragment, id: nat, parts: seq<Bytes>) {
    f.id == id && f.number < |parts| && f.part == parts[f.number] && (f.final <==> f.number == |parts| - 1)
  }

  function Below(n: nat): (s: set<nat>)
    ensures forall i: nat :: i in s <==> i < n
  {
    if n == 0 then {} else Below(n - 1) + {n - 1}
  }

  lemma {:induction false} BelowSize(n: nat)
    ensures |Below(n)| == n
  {
    if n > 0 {
      BelowSize(n - 1);
    }
  }

  lemma {:induction false} CountTrueIs(bits: seq<bool>, s: set<nat>)
    requires forall i :: i in s ==> i < |bits| && bits[i]
    requires forall i :: 0 <= i < |bits| && bits[i] ==> i in s
    ensures CountTrue(bits) == |s|
  {
    if bits == [] {
      assert s == {};
    } else {
      var n := |bits| - 1;
      CountTrueIs(bits[..n], s - {n});
      assert Last(bits) ==> s == (s - {n}) + {n};
    }
  }

  lemma SubsetFull(s: set<nat>, n: nat)
    requires forall i :: i in s ==> i < n
    ensures |s| <= n && (|s| == n ==> s == Below(n))
  {
    BelowSize(n);
    var missing := Below(n) - s;
    assert Below(n) == s + missing;
    assert |Below(n)| == |s| + |missing|;
  }

  lemma ExtendedGathers(a: Assembly, n: nat, parts: seq<Bytes>, arrived: set<nat>)
    requires Gathered(a, parts, arrived) && n <= |parts|
    ensures Gathered(Extended(a, n), parts, arrived)
  {
  }

  lemma MarkedGathers(a: Assembly, f: Fragment, parts: seq<Bytes>, arrived: set<nat>)
    requires Gathered(a, parts, arrived) && IsPart(f, a.id, parts) && f.number < |a.arrived|
    ensures Filled(Marked(a, f), parts, arrived + {f.number})
    ensures Marked(a, f).total == a.total && |Marked(a, f).arrived| == |a.arrived|
  {
    assert f.number in arrived ==> arrived + {f.number} == arrived;
  }

  lemma EndedGathers(a: Assembly, n: nat, parts: seq<Bytes>, arrived: set<nat>)
    requires Filled(a, parts, arrived) && n == |parts| > 0 && n - 1 in arrived
    ensures Gathered(Ended(a, n), parts, arrived)
  {
    CountTrueIs(Resized(a.arrived, n, false), arrived);
  }

  lemma PlacedGathers(a: Assembly, f: Fragment, parts: seq<Bytes>, arrived: set<nat>)
    requires |a.fragments| == |a.arrived| && IsPart(f, f.id, parts) && Gathered(Turned(a, f.id), parts, arrived)
    ensures Gathered(Placed(a, f), parts, arrived + {f.number}) && Placed(a, f).id == f.id
  {
    hide Filled, Extended, Turned, Marked, Ended;
    var room := Extended(Turned(a, f.id), f.number + 1);
    ExtendedGathers(Turned(a, f.id), f.number + 1, parts, arrived);
    MarkedGathers(room, f, parts, arrived);
    if f.final {
      EndedGathers(Marked(room, f), f.number + 1, parts, arrived + {f.number});
    }
  }

  lemma NothingGathered(id: nat, parts: seq<Bytes>)
    ensures Gathered(Assembly(id, [], [], 0, -1), parts, {})
  {
  }

  /** A fragment is kept until none is missing; then the payload is handed on, and never anything else. */
  lemma ReceiveGathers(a: Assembly, f: Fragment, parts: seq<Bytes>, arrived: set<nat>)
    requires |a.fragments| == |a.arrived| && |parts| <= MAX_FRAGMENTS
    requires IsPart(f, f.id, parts) && Gathered(Turned(a, f.id), parts, arrived)
    ensures var (b, payload) := Receive(a, f);
      && b.id == f.id && |b.fragments| == |b.arrived|
      && (payload.Some? <==> arrived + {f.number} == Below(|parts|))
      && (payload.Some? ==> payload.value == Concat(parts) && Gathered(b, parts, {}))
      && (payload.None? ==> Gathered(b, parts, arrived + {f.number}))
  {
    PlacedGathers(a, f, parts, arrived);
    var p, all := Placed(a, f), arrived + {f.number};
    GatheredAll(p, parts, all);
    NothingGathered(f.id, parts);
    hide Placed, Gathered, Below, Turned;
  }

  lemma GatheredAll(a: Assembly, parts: seq<Bytes>, arrived: set<nat>)
    requires Gathered(a, parts, arrived) && parts != []
    ensures a.count == a.total <==> arrived == Below(|parts|)
    ensures a.count == a.total ==> a.fragments == parts
  {
    SubsetFull(arrived, |parts|);
    BelowSize(|parts|);
    LastBelow(|parts|);
    hide Below;
    if a.count == a.total {
      assert forall i :: 0 <= i < |parts| ==> i in arrived && a.fragments[i] == parts[i] by { AllBelow(|parts|); }
    }
  }

  lemma LastBelow(n: nat)
    requires n > 0
    ensures n - 1 in Below(n)
  {
  }

  lemma AllBelow(n: nat)
    ensures forall i :: 0 <= i < n ==> i in Below(n)
  {
  }

  function Numbers(fs: seq<Fragment>): set<nat> { set i | 0 <= i < |fs| :: fs[i].number }

  /** What comes out of a sequence of fragments, in order, with the id it came under. */
  function Outputs(a: Assembly, fs: seq<Fragment>): seq<(nat, Bytes)>
    requires |a.fragments| == |a.arrived|
    decreases |fs|
  {
    if fs == [] then []
    else
      ReceiveShape(a, fs[0]);
      var (b, payload) := Receive(a, fs[0]);
      (if payload.Some? then [(fs[0].id, payload.value)] else []) + Outputs(b, fs[1..])
  }

  lemma ReceiveShape(a: Assembly, f: Fragment)
    requires |a.fragments| == |a.arrived|
    ensures |Receive(a, f).0.fragments| == |Receive(a, f).0.arrived|
  {
  }

  /** payloads gives the payload each id was cut from. */
  ghost predicate FromSplits(fs: seq<Fragment>, payloads: map<nat, Bytes>) {
    forall i :: 0 <= i < |fs| ==>
      && fs[i].id in payloads && |payloads[fs[i].id]| <= FRAGMENT_PAYLOAD * MAX_FRAGMENTS
      && fs[i] in Fragments(fs[i].id, payloads[fs[i].id])
  }

  lemma {:induction false} FragmentCount(id: nat, payload: Bytes, number: nat, most: nat)
    requires 1 <= most && |payload| <= FRAGMENT_PAYLOAD * most
    ensures |FragmentsFrom(id, payload, number)| <= most
    decreases |payload|
  {
    var rest := payload[|Part(payload)|..];
    if rest != [] {
      FragmentCount(id, rest, number + 1, most - 1);
    }
  }

  lemma SplitParts(id: nat, payload: Bytes)
    requires |payload| <= FRAGMENT_PAYLOAD * MAX_FRAGMENTS
    ensures var parts := Parts(Fragments(id, payload));
      && 1 <= |parts| <= MAX_FRAGMENTS && Concat(parts) == payload
      && (forall f :: f in Fragments(id, payload) ==> IsPart(f, id, parts))
      && (forall i :: 0 <= i < |parts| ==> Fragments(id, payload)[i].number == i)
  {
    CutMakesUp(id, payload, 0);
    FragmentCount(id, payload, 0, MAX_FRAGMENTS);
  }

  ghost predicate Sound(a: Assembly, payloads: map<nat, Bytes>) {
    && |a.fragments| == |a.arrived|
    && (a.id in payloads && |payloads[a.id]| <= FRAGMENT_PAYLOAD * MAX_FRAGMENTS ==>
          exists arrived: set<nat> :: Gathered(a, Parts(Fragments(a.id, payloads[a.id])), arrived))
  }

  /** In any order, with repeats and mixed with other ids, whatever is handed on is exactly the payload of its id. */
  lemma {:induction false} OnlyPayloadsComeOut(a: Assembly, fs: seq<Fragment>, payloads: map<nat, Bytes>)
    requires Sound(a, payloads) && FromSplits(fs, payloads)
    ensures forall i :: 0 <= i < |Outputs(a, fs)| ==>
      Outputs(a, fs)[i].0 in payloads && Outputs(a, fs)[i].1 == payloads[Outputs(a, fs)[i].0]
    decreases |fs|
  {
    hide Gathered, Receive, Fragments, Parts;
    if fs != [] {
      var f := fs[0];
      var parts := Parts(Fragments(f.id, payloads[f.id]));
      SplitParts(f.id, payloads[f.id]);
      var arrived: set<nat> := {};
      if a.id == f.id {
        arrived :| Gathered(a, parts, arrived);
      } else {
        NothingGathered(f.id, parts);
      }
      ReceiveGathers(a, f, parts, arrived);
      OnlyPayloadsComeOut(Receive(a, f).0, fs[1..], payloads);
    }
  }

  lemma {:induction false} OutputsOfOne(a: Assembly, fs: seq<Fragment>, id: nat, parts: seq<Bytes>, arrived: set<nat>)
    requires |a.fragments| == |a.arrived| && 1 <= |parts| <= MAX_FRAGMENTS
    requires forall i :: 0 <= i < |fs| ==> IsPart(fs[i], id, parts)
    requires Gathered(Turned(a, id), parts, arrived) && arrived != Below(|parts|)
    ensures Outputs(a, fs) != [] <==> arrived + Numbers(fs) == Below(|parts|)
    decreases |fs|
  {
    hide Gathered, Receive, Below, Turned;
    if fs == [] {
      assert arrived + Numbers(fs) == arrived;
    } else {
      var f := fs[0];
      ReceiveGathers(a, f, parts, arrived);
      var b := Receive(a, f).0;
      assert Turned(b, id) == b by { TurnedSame(b, id); }
      assert Numbers(fs) == {f.number} + Numbers(fs[1..]) by { NumbersOf(fs); }
      if Receive(a, f).1.None? {
        OutputsOfOne(b, fs[1..], id, parts, arrived + {f.number});
        assert arrived + {f.number} + Numbers(fs[1..]) == arrived + Numbers(fs);
      } else {
        NumbersBelow(fs[1..], id, parts);
        assert arrived + Numbers(fs) == Below(|parts|) + Numbers(fs[1..]);
      }
    }
  }

  lemma TurnedSame(a: Assembly, id: nat)
    requires a.id == id
    ensures Turned(a, id) == a
  {
  }

  lemma NumbersOf(fs: seq<Fragment>)
    requires fs != []
    ensures Numbers(fs) == {fs[0].number} + Numbers(fs[1..])
  {
    assert forall i :: 1 <= i < |fs| ==> fs[i] == fs[1..][i - 1];
    assert forall i :: 0 <= i < |fs[1..]| ==> fs[1..][i] == fs[i + 1];
  }

  lemma NumbersBelow(fs: seq<Fragment>, id: nat, parts: seq<Bytes>)
    requires forall i :: 0 <= i < |fs| ==> IsPart(fs[i], id, parts)
    ensures Below(|parts|) + Numbers(fs) == Below(|parts|)
  {
  }

  /** Without another id in between, something is handed on exactly when every fragment of the payload has come,
    * in whatever order and however often. */
  lemma HandedOnOnceComplete(a: Assembly, fs: seq<Fragment>, id: nat, payload: Bytes)
    requires |a.fragments| == |a.arrived| && a.id != id && |payload| <= FRAGMENT_PAYLOAD * MAX_FRAGMENTS
    requires forall i :: 0 <= i < |fs| ==> fs[i] in Fragments(id, payload)
    ensures Outputs(a, fs) != [] <==> forall f :: f in Fragments(id, payload) ==> f.number in Numbers(fs)
  {
    hide Outputs, Fragments, Parts, Numbers, Gathered, Below;
    SplitParts(id, payload);
    var all := Fragments(id, payload);
    var parts := Parts(all);
    NothingGathered(id, parts);
    BelowSize(|parts|);
    assert {} != Below(|parts|);
    OutputsOfOne(a, fs, id, parts, {});
    NumbersComplete(fs, id, all, parts);
    assert {} + Numbers(fs) == Numbers(fs);
  }

  lemma NumbersComplete(fs: seq<Fragment>, id: nat, all: seq<Fragment>, parts: seq<Bytes>)
    requires |all| == |parts| && forall f :: f in all ==> IsPart(f, id, parts)
    requires forall i :: 0 <= i < |all| ==> all[i].number == i
    requires forall i :: 0 <= i < |fs| ==> fs[i] in all
    ensures Numbers(fs) == Below(|parts|) <==> forall f :: f in all ==> f.number in Numbers(fs)
  {
    hide Numbers;
    NumbersBelow(fs, id, parts);
    if forall f :: f in all ==> f.number in Numbers(fs) {
      forall i | i in Below(|parts|) ensures i in Numbers(fs) {
        assert all[i] in all;
      }
      assert Numbers(fs) == Below(|parts|);
    }
  }

  /** The fragments are a first one and those of the rest. */
  lemma FirstThenRest(id: nat, payload: Bytes, number: nat) returns (first: Fragment, rest: Bytes)
    ensures |payload| > FRAGMENT_PAYLOAD ==> |rest| == |payload| - FRAGMENT_PAYLOAD
    ensures |payload| <= FRAGMENT_PAYLOAD ==> rest == []
    ensures first.id == id && first.number == number && (first.final <==> rest == [])
    ensures FragmentsFrom(id, payload, number)
         == [first] + if rest != [] && number + 1 < LAST_NUMBER then FragmentsFrom(id, rest, number + 1) else []
  {
    rest := payload[|Part(payload)|..];
    first := Fragment(id, number, rest == [], Part(payload));
  }

  lemma {:induction false} LongHasNoEnd(id: nat, payload: Bytes, number: nat)
    requires number <= MAX_FRAGMENTS && |payload| > FRAGMENT_PAYLOAD * (MAX_FRAGMENTS - number)
    ensures forall f :: f in FragmentsFrom(id, payload, number) ==> f.id == id && (f.final ==> f.number >= MAX_FRAGMENTS)
    decreases |payload|
  {
    hide FragmentsFrom;
    if number == MAX_FRAGMENTS {
      NumbersRise(id, payload, number);
    } else {
      var first, rest := FirstThenRest(id, payload, number);
      LongHasNoEnd(id, rest, number + 1);
    }
  }

  lemma {:induction false} NumbersRise(id: nat, payload: Bytes, number: nat)
    ensures forall f :: f in FragmentsFrom(id, payload, number) ==> f.id == id && f.number >= number
    decreases |payload|
  {
    hide FragmentsFrom;
    var first, rest := FirstThenRest(id, payload, number);
    if rest != [] && number + 1 < LAST_NUMBER {
      NumbersRise(id, rest, number + 1);
    }
  }

  /** A payload of more than 8192 fragments is never handed on, as its end is not let in. */
  lemma {:induction false} TooLongNeverComesOut(a: Assembly, fs: seq<Fragment>, id: nat, payload: Bytes)
    requires |a.fragments| == |a.arrived| && |payload| > FRAGMENT_PAYLOAD * MAX_FRAGMENTS
    requires a.id == id ==> a.total == -1
    requires forall i :: 0 <= i < |fs| ==> fs[i] in Fragments(id, payload)
    ensures Outputs(a, fs) == []
    decreases |fs|
  {
    hide Fragments, Extended, Ended;
    if fs != [] {
      assert fs[0].id == id && (fs[0].final ==> fs[0].number >= MAX_FRAGMENTS) by { LongHasNoEnd(id, payload, 0); FragmentsAre(id, payload); }
      NeverTotal(a, fs[0]);
      TooLongNeverComesOut(Receive(a, fs[0]).0, fs[1..], id, payload);
    }
  }

  lemma FragmentsAre(id: nat, payload: Bytes)
    ensures Fragments(id, payload) == FragmentsFrom(id, payload, 0)
  {
  }

  lemma NeverTotal(a: Assembly, f: Fragment)
    requires |a.fragments| == |a.arrived| && (a.id == f.id ==> a.total == -1) && (f.final ==> f.number >= MAX_FRAGMENTS)
    ensures Receive(a, f).1 == None && (Receive(a, f).0.id == f.id ==> Receive(a, f).0.total == -1)
  {
  }
}
