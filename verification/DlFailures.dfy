/**
 Runs from the initial state in which RLC keeps its contract and nothing is lost, and yet an SDU comes
 out wrong: because the default bearer is not moved ahead in the poll order, because the header length
 is not counted again after the merge, or because the rebuilt header cannot hold a length. And one in
 which two of these cancel each other.
 */
module DlFailures {
  import opened Bytes
  import opened RlcUmd
  import opened RlcHeader
  import opened RlcMeaning
  import RlcMerge
  import opened RlcFailures
  import opened DlGather
  import opened RlcReassembly
  import MacPdu
  import opened TransportBlock
  import opened DlStream
  import opened DlExact

  // ----- polls

  lemma SkipOne(bs: Bearers, room: int, order: seq<nat>, answers: seq<Answer>)
    requires ValidBearers(bs) && |answers| == |order| && order != [] && room > 0
    requires order[0] in bs && bs[order[0]].queue == [] && answers[0].NoBytes?
    requires HonestPolls(bs, room, order[1..], answers[1..])
    ensures HonestPolls(bs, room, order, answers)
    ensures Poll(bs, room, order, answers) == Poll(bs, room, order[1..], answers[1..])
  {
    assert bs[order[0] := Served(bs[order[0]], answers[0])] == bs;
  }

  lemma {:induction false} SkipEmpty(bs: Bearers, room: int, order: seq<nat>, answers: seq<Answer>, k: nat)
    requires ValidBearers(bs) && |answers| == |order| && k <= |order| && room > 0
    requires forall j :: 0 <= j < k ==> order[j] in bs && bs[order[j]].queue == [] && answers[j].NoBytes?
    requires HonestPolls(bs, room, order[k..], answers[k..])
    ensures HonestPolls(bs, room, order, answers)
    ensures Poll(bs, room, order, answers) == Poll(bs, room, order[k..], answers[k..])
    decreases k
  {
    hide Poll, HonestPolls;
    if k == 0 {
      assert order[0..] == order && answers[0..] == answers;
    } else {
      assert order[1..][k - 1..] == order[k..] && answers[1..][k - 1..] == answers[k..];
      SkipEmpty(bs, room, order[1..], answers[1..], k - 1);
      SkipOne(bs, room, order, answers);
    }
  }

  /** A PDU with one field. */
  function OneField(data: seq<byte>, fi: nat): (r: seq<byte>)
    requires fi < 4
  {
    MergedPdu([data], fi, 0)
  }

  lemma OneFieldReads(data: seq<byte>, fi: nat)
    requires fi < 4 && data != []
    ensures |OneField(data, fi)| == 2 + |data| && Parse(OneField(data, fi)) == Some(Umd(fi, 0, [data]))
  {
    var fields := [data];
    assert Representable(Lengths(fields));
    hide Parse, MergedPdu, Representable, Concat;
    RepresentableReadsBack(fields, fi, 0);
    ConcatFirst(fields);
    assert Concat(fields[1..]) == [] by { NoPieces(); }
    MergedLayout(fields, fi, 0);
  }

  /** The bearer once n octets are gone. */
  function Taken(b: Bearer, n: nat): (r: Bearer)
    requires ValidBearer(b) && b.queue != [] && 0 < n && b.offset + n <= |b.queue[0]|
    ensures ValidBearer(r)
  {
    if |b.queue[0]| > b.offset + n then Bearer(b.queue, b.offset + n) else Bearer(b.queue[1..], 0)
  }

  /** The next octets of the bearer are x. */
  predicate Waiting(b: Bearer, x: seq<byte>)
    requires ValidBearer(b)
  {
    b.queue != [] && x != [] && b.offset + |x| <= |b.queue[0]| && b.queue[0][b.offset..b.offset + |x|] == x
  }

  /** What is left of a poll's room. */
  function Behind(room: int, n: nat): (r: int) {
    room - (2 + n) - SubheaderLen(2 + n)
  }

  /** What a poll that takes the octets x does. */
  lemma TakeField(bs: Bearers, room: int, order: seq<nat>, answers: seq<Answer>, x: seq<byte>, fi: nat)
    requires ValidBearers(bs) && |answers| == |order| && order != [] && fi < 4
    requires answers[0] == Pdu(OneField(x, fi)) && room >= 2 + |x| && order[0] in bs && Waiting(bs[order[0]], x)
    requires var b := bs[order[0]];
      && (StartsInside(fi) <==> b.offset > 0)
      && (EndsInside(fi) <==> |b.queue[0]| > b.offset + |x|)
      && (EndsInside(fi) ==> room == 2 + |x|)
    requires HonestPolls(bs[order[0] := Taken(bs[order[0]], |x|)], Behind(room, |x|), order[1..], answers[1..])
    ensures HonestPolls(bs, room, order, answers)
    ensures var tail := Poll(bs[order[0] := Taken(bs[order[0]], |x|)], Behind(room, |x|), order[1..], answers[1..]);
      Poll(bs, room, order, answers) ==
      Polled(tail.bearers, [OneField(x, fi)] + tail.pdus, [order[0]] + tail.lcids,
             Tag(order[0], if EndsInside(fi) then [] else [bs[order[0]].queue[0]]) + tail.log)
  {
    hide Honest, Served, Parse, OneField, Taken, Completed, Carries;
    var l, a := order[0], answers[0];
    HonestField(bs[l], room, x, fi);
    assert bs[l := Served(bs[l], a)] == bs[l := Taken(bs[l], |x|)];
  }

  lemma HonestField(b: Bearer, room: int, x: seq<byte>, fi: nat)
    requires ValidBearer(b) && fi < 4 && room >= 2 + |x| && Waiting(b, x)
    requires (StartsInside(fi) <==> b.offset > 0) && (EndsInside(fi) <==> |b.queue[0]| > b.offset + |x|)
    requires EndsInside(fi) ==> room == 2 + |x|
    ensures var a := Pdu(OneField(x, fi));
      && Honest(b, room, a) && WellFormed(a.octets) && Carries(b, Parse(a.octets).value.fields)
      && Served(b, a) == Taken(b, |x|) && RoomAfter(room, a) == Behind(room, |x|)
      && Completed(b, Parse(a.octets).value.fields) == if EndsInside(fi) then [] else [b.queue[0]]
  {
    hide Parse, OneField;
    OneFieldReads(x, fi);
    OnePiece(b, x);
    hide Waiting, CutShort, Carries, Completed, After;
  }

  lemma OnePiece(b: Bearer, x: seq<byte>)
    requires ValidBearer(b) && Waiting(b, x)
    ensures Carries(b, [x]) && (CutShort(b, [x]) <==> |b.queue[0]| > b.offset + |x|)
    ensures After(b, [x]) == Taken(b, |x|)
    ensures Completed(b, [x]) == if |b.queue[0]| > b.offset + |x| then [] else [b.queue[0]]
  {
    var left := Left(b, 0);
    assert left == b.queue[0][b.offset..];
    assert left[..|x|] == x;
    assert |left| == |x| ==> left == x;
    assert b.queue[0..] == b.queue;
  }

  // ----- four events

  const NOTHING := NoBytes

  function LastOctet(x: seq<byte>): (r: seq<byte>)
    requires x != []
  {
    x[|x| - 1..]
  }

  /** Only LCID c has data; its gate is open, and there is room for all but the last octet. */
  function FirstBlock(c: nat, x: seq<byte>): (r: Event)
    requires x != []
  {
    Send(if c == 3 then 3 else 1, |x| + 4, 31,
         [NOTHING, NOTHING, NOTHING, NOTHING, NOTHING, NOTHING, NOTHING, NOTHING, NOTHING,
          Pdu(OneField(x[..|x| - 1], 1)), NOTHING, NOTHING, NOTHING], |x| + 4)
  }

  /** LCID 4's gate is open; there is room for everything. */
  function SecondBlock(c: nat, x: seq<byte>, y: seq<byte>, grant: nat): (r: Event)
    requires x != []
  {
    if c == 3 then
      Send(0, |y| + 100, 31, [NOTHING, NOTHING, NOTHING, NOTHING, NOTHING, NOTHING, NOTHING, NOTHING, NOTHING,
                              Pdu(OneField(y, 0)), NOTHING, NOTHING, Pdu(OneField(LastOctet(x), 2))], grant)
    else
      Send(0, |y| + 100, 31, [NOTHING, NOTHING, NOTHING, NOTHING, NOTHING, NOTHING, NOTHING, NOTHING,
                              Pdu(OneField(LastOctet(x), 2)), Pdu(OneField(y, 0)), NOTHING, NOTHING, NOTHING], grant)
  }

  /** SDU x arrives at LCID c and is sent but for an octet, then SDU y arrives at LCID 4 and the rest is sent. */
  function Run(c: nat, x: seq<byte>, y: seq<byte>, grant: nat): (r: seq<Event>)
    requires x != []
  {
    [Arrive(c, x), FirstBlock(c, x), Arrive(4, y), SecondBlock(c, x, y, grant)]
  }

  /** The default bearer or a dedicated one other than LCID 4, an SDU of at least two octets, and any other one. */
  predicate Case(c: nat, x: seq<byte>, y: seq<byte>) {
    (c == 3 || c == 5) && 2 <= |x| < 30000 && 1 <= |y| < 30000
  }

  /** Every bearer but those in `busy` is empty. */
  ghost predicate OthersEmpty(s: State, busy: set<nat>) {
    forall l: nat :: 1 <= l <= 13 && l !in busy ==> l in s.bearers && s.bearers[l] == Bearer([], 0)
  }

  ghost predicate Begun(s: State, c: nat, x: seq<byte>) {
    && Inv(s) && s.fiInd == 0 && s.sn == 0 && s.log == []
    && c in s.bearers && s.bearers[c] == Bearer([x], 0) && OthersEmpty(s, {c})
  }

  ghost predicate HalfSent(s: State, c: nat, x: seq<byte>)
    requires |x| >= 2
  {
    && Inv(s) && s.fiInd == c && s.sn == 1 && s.rx == Rx(x[..|x| - 1], []) && s.log == []
    && c in s.bearers && s.bearers[c] == Bearer([x], |x| - 1) && OthersEmpty(s, {c})
  }

  ghost predicate BothWait(s: State, c: nat, x: seq<byte>, y: seq<byte>)
    requires |x| >= 2
  {
    && Inv(s) && s.fiInd == c && s.sn == 1 && s.rx == Rx(x[..|x| - 1], []) && s.log == []
    && c in s.bearers && s.bearers[c] == Bearer([x], |x| - 1)
    && 4 in s.bearers && s.bearers[4] == Bearer([y], 0) && OthersEmpty(s, {c, 4})
  }

  lemma FirstArrival(c: nat, x: seq<byte>)
    requires 3 <= c <= 13 && x != []
    ensures Permitted(INITIAL, Arrive(c, x)) && Begun(Next(INITIAL, Arrive(c, x)), c, x)
  {
    hide Inv;
    var e := Arrive(c, x);
    InitialInv();
    assert Permitted(INITIAL, e) by { InvShaped(INITIAL); }
    ArriveKeeps(INITIAL, e);
    assert Next(INITIAL, e).bearers[c].queue == [] + [x];
  }

  lemma InvShaped(s: State)
    requires Inv(s)
    ensures Shaped(s)
  {
  }

  lemma FirstRound(s: State, c: nat, x: seq<byte>)
    requires Begun(s, c, x) && (c == 3 || c == 5) && |x| >= 2
    ensures CanPoll(s, FirstBlock(c, x))
    ensures Round(s, FirstBlock(c, x)) ==
            Polled(s.bearers[c := Bearer([x], |x| - 1)], [OneField(x[..|x| - 1], 1)], [c], [])
  {
    hide OneField, Poll, HonestPolls, Inv, Gated;
    InvShaped(s);
    Gates();
    var bs, e, order := s.bearers, FirstBlock(c, x), FullOrder(if c == 3 then 3 else 1, 0);
    assert order[9..] == [c, c, c, 3];
    assert e.answers[9..] == [Pdu(OneField(x[..|x| - 1], 1)), NOTHING, NOTHING, NOTHING];
    HalfPolled(bs, c, x, order[9..], e.answers[9..]);
    SkipEmpty(bs, |x| + 1, order, e.answers, 9);
  }

  lemma Gates()
    ensures Gated(3) == 3 && Gated(1) == 5 && Gated(0) == 4
  {
  }

  lemma HalfPolled(bs: Bearers, c: nat, x: seq<byte>, o: seq<nat>, a: seq<Answer>)
    requires ValidBearers(bs) && c in bs && |x| >= 2 && bs[c] == Bearer([x], 0)
    requires |o| == |a| > 0 && o[0] == c && a[0] == Pdu(OneField(x[..|x| - 1], 1))
    ensures HonestPolls(bs, |x| + 1, o, a)
    ensures Poll(bs, |x| + 1, o, a) == Polled(bs[c := Bearer([x], |x| - 1)], [OneField(x[..|x| - 1], 1)], [c], [])
  {
    hide OneField, Poll, HonestPolls;
    var most := x[..|x| - 1];
    assert x[0..0 + |most|] == most;
    PollNone(bs[c := Taken(bs[c], |most|)], Behind(|x| + 1, |most|), o[1..], a[1..]);
    TakeField(bs, |x| + 1, o, a, most, 1);
    assert Tag(c, []) + [] == [];
  }

  lemma FirstSent(s: State, c: nat, x: seq<byte>)
    requires Begun(s, c, x) && (c == 3 || c == 5) && 2 <= |x| < 30000
    ensures Permitted(s, FirstBlock(c, x)) && HalfSent(Next(s, FirstBlock(c, x)), c, x)
  {
    hide OneField, Poll, HonestPolls, Round, CanPoll, Parse, FieldsOf, Representable, Air, Hear, Inv, Need;
    var e, most := FirstBlock(c, x), x[..|x| - 1];
    InvShaped(s);
    FirstRound(s, c, x);
    OneFieldReads(most, 1);
    OneCanMerge(OneField(most, 1), most);
    assert Permitted(s, e) && Enabled(s, e);
    SendKeeps(s, e);
    InStepNow(Next(s, e), c, x);
  }

  lemma InStepNow(s: State, c: nat, x: seq<byte>)
    requires Inv(s) && s.fiInd == c != 0 && s.log == [] && |x| >= 2
    requires c in s.bearers && s.bearers[c] == Bearer([x], |x| - 1)
    ensures s.rx == Rx(x[..|x| - 1], [])
  {
  }

  lemma OneCanMerge(p: seq<byte>, data: seq<byte>)
    requires Parse(p).Some? && Parse(p).value.fields == [data] && |p| == 2 + |data|
    ensures CanMerge([p]) && Legible([p]) && Need([p], 31) == 1 + |p|
  {
    hide Parse;
    OneFieldOf(p);
    assert Lengths([data]) == [|data|];
    NeedOne(p);
  }

  lemma NeedOne(p: seq<byte>)
    ensures Need([p], 31) == 1 + |p|
  {
    assert Lengths([p]) == [] + [|p|];
    SizesNext([], |p|);
  }

  lemma SizesNext(lens: seq<nat>, n: nat)
    ensures Sum(lens + [n]) == Sum(lens) + n && SumSub(lens + [n]) == SumSub(lens) + SubheaderLen(n)
    ensures OpenSize(lens + [n]) == SumSub(lens) + 1
  {
    assert (lens + [n])[..|lens|] == lens;
  }

  lemma SecondArrival(s: State, c: nat, x: seq<byte>, y: seq<byte>)
    requires Case(c, x, y) && HalfSent(s, c, x)
    ensures Permitted(s, Arrive(4, y)) && BothWait(Next(s, Arrive(4, y)), c, x, y)
  {
    hide Inv;
    var e := Arrive(4, y);
    InvShaped(s);
    ArriveKeeps(s, e);
    assert Next(s, e).bearers[4].queue == [] + [y];
  }

  /** The default bearer is polled last, after LCID 4. */
  lemma GatedFirst(s: State, x: seq<byte>, y: seq<byte>, grant: nat)
    requires Case(3, x, y) && BothWait(s, 3, x, y)
    ensures CanPoll(s, SecondBlock(3, x, y, grant))
    ensures var r := Round(s, SecondBlock(3, x, y, grant));
      && r.pdus == [OneField(y, 0), OneField(LastOctet(x), 2)] && r.lcids == [4, 3] && r.log == [(4, y), (3, x)]
      && r.bearers == s.bearers[4 := Bearer([], 0)][3 := Bearer([], 0)]
  {
    hide OneField, Poll, HonestPolls, Inv, Gated;
    InvShaped(s);
    Gates();
    var bs, e, order := s.bearers, SecondBlock(3, x, y, grant), FullOrder(0, 3);
    assert order[9..] == [4, 4, 4, 3];
    assert e.answers[9..] == [Pdu(OneField(y, 0)), NOTHING, NOTHING, Pdu(OneField(LastOctet(x), 2))];
    FourPolled(bs, x, y, order[9..], e.answers[9..]);
    SkipEmpty(bs, |y| + 97, order, e.answers, 9);
  }

  lemma FourPolled(bs: Bearers, x: seq<byte>, y: seq<byte>, o: seq<nat>, a: seq<Answer>)
    requires Case(3, x, y) && ValidBearers(bs) && 3 in bs && 4 in bs
    requires bs[3] == Bearer([x], |x| - 1) && bs[4] == Bearer([y], 0)
    requires o == [4, 4, 4, 3] && a == [Pdu(OneField(y, 0)), NOTHING, NOTHING, Pdu(OneField(LastOctet(x), 2))]
    ensures HonestPolls(bs, |y| + 97, o, a)
    ensures Poll(bs, |y| + 97, o, a) ==
            Polled(bs[4 := Bearer([], 0)][3 := Bearer([], 0)], [OneField(y, 0), OneField(LastOctet(x), 2)], [4, 3],
                   [(4, y), (3, x)])
  {
    hide OneField, Poll, HonestPolls;
    assert y[0..0 + |y|] == y;
    var bs1 := bs[4 := Taken(bs[4], |y|)];
    var o1, a1, o3, a3 := o[1..], a[1..], o[1..][2..], a[1..][2..];
    var room := Behind(|y| + 97, |y|);
    PollNone(bs1[3 := Taken(bs1[3], 1)], Behind(room, 1), o3[1..], a3[1..]);
    TakeField(bs1, room, o3, a3, LastOctet(x), 2);
    SkipEmpty(bs1, room, o1, a1, 2);
    TakeField(bs, |y| + 97, o, a, y, 0);
    assert Tag(4, [y]) + (Tag(3, [x]) + []) == [(4, y), (3, x)];
  }

  /** A dedicated bearer with an unfinished SDU is polled first. */
  lemma UnfinishedPolledFirst(s: State, x: seq<byte>, y: seq<byte>, grant: nat)
    requires Case(5, x, y) && BothWait(s, 5, x, y)
    ensures CanPoll(s, SecondBlock(5, x, y, grant))
    ensures var r := Round(s, SecondBlock(5, x, y, grant));
      r.pdus == [OneField(LastOctet(x), 2), OneField(y, 0)] && r.lcids == [5, 4] && r.log == [(5, x), (4, y)]
  {
    hide OneField, Poll, HonestPolls, Inv, Gated;
    InvShaped(s);
    Gates();
    var bs, e, order := s.bearers, SecondBlock(5, x, y, grant), FullOrder(0, 5);
    assert order[8..] == [5, 4, 4, 4, 3];
    assert e.answers[8..] == [Pdu(OneField(LastOctet(x), 2)), Pdu(OneField(y, 0)), NOTHING, NOTHING, NOTHING];
    FivePolled(bs, x, y, order[8..], e.answers[8..]);
    SkipEmpty(bs, |y| + 97, order, e.answers, 8);
  }

  lemma FivePolled(bs: Bearers, x: seq<byte>, y: seq<byte>, o: seq<nat>, a: seq<Answer>)
    requires Case(5, x, y) && ValidBearers(bs) && 4 in bs && 5 in bs && 3 in bs
    requires bs[5] == Bearer([x], |x| - 1) && bs[4] == Bearer([y], 0) && bs[3] == Bearer([], 0)
    requires o == [5, 4, 4, 4, 3]
    requires a == [Pdu(OneField(LastOctet(x), 2)), Pdu(OneField(y, 0)), NOTHING, NOTHING, NOTHING]
    ensures HonestPolls(bs, |y| + 97, o, a)
    ensures var r := Poll(bs, |y| + 97, o, a);
      r.pdus == [OneField(LastOctet(x), 2), OneField(y, 0)] && r.lcids == [5, 4] && r.log == [(5, x), (4, y)]
  {
    hide OneField, Poll, HonestPolls;
    assert y[0..0 + |y|] == y;
    var bs1 := bs[5 := Taken(bs[5], 1)];
    var bs2 := bs1[4 := Taken(bs1[4], |y|)];
    var o1, a1, o2, a2 := o[1..], a[1..], o[1..][1..], a[1..][1..];
    var room := Behind(|y| + 97, 1);
    PollNone(bs2, Behind(room, |y|), o2[3..], a2[3..]);
    SkipEmpty(bs2, Behind(room, |y|), o2, a2, 3);
    TakeField(bs1, room, o1, a1, y, 0);
    TakeField(bs, |y| + 97, o, a, LastOctet(x), 2);
    assert Tag(5, [x]) + (Tag(4, [y]) + []) == [(5, x), (4, y)];
  }

  /** Two PDUs of one field each. */
  lemma TwoPdus(p: seq<byte>, q: seq<byte>, x: seq<byte>, y: seq<byte>)
    requires WellFormed(p) && WellFormed(q) && |p| == 2 + |x| && |q| == 2 + |y|
    requires Parse(p).value.fields == [x] && Parse(q).value.fields == [y]
    ensures CanMerge([p, q]) && FieldsOf([p, q]) == [x, y] && MergedSize([p, q]) == 4 + |x| + |y|
    ensures OpenSize(Lengths([p, q])) == SubheaderLen(|p|) + 1
    ensures Need([p, q], 31) == SubheaderLen(|p|) + 1 + |p| + |q|
  {
    hide Parse;
    TwoFieldLists(p, q);
    assert [x] + [y] == [x, y];
    TwoSizes(p, q, x, y);
  }

  lemma TwoSizes(p: seq<byte>, q: seq<byte>, x: seq<byte>, y: seq<byte>)
    ensures Sum(Lengths([p, q])) == |p| + |q| && OpenSize(Lengths([p, q])) == SubheaderLen(|p|) + 1
    ensures Concat([x, y]) == x + y
  {
    var none: seq<nat> := [];
    assert Sum(none) == 0 && SumSub(none) == 0;
    hide Sum, SumSub, OpenSize, Concat;
    assert Lengths([p, q]) == none + [|p|] + [|q|];
    SizesNext(none, |p|);
    SizesNext(none + [|p|], |q|);
    TwoPieces(x, y);
  }

  lemma TwoPieces(x: seq<byte>, y: seq<byte>)
    ensures Concat([x, y]) == x + y
  {
    hide Concat;
    var none, one: seq<seq<byte>> := [], [x];
    assert one + [y] == [x, y] && none + one == one;
    ConcatNext(one, y);
    ConcatNext(none, x);
    NoPieces();
  }

  lemma TwoReceived(rx: Rx, x: seq<byte>, y: seq<byte>)
    ensures Receive(rx, [x, y], true, false) == Rx([], rx.delivered + [rx.partial + x, y])
  {
    var fields := [x, y];
    assert fields[1..] == [y];
    assert [] + y == y;
  }

  lemma ThreeEvents(c: nat, x: seq<byte>, y: seq<byte>) returns (s1: State, s2: State, s3: State)
    requires Case(c, x, y)
    ensures Permitted(INITIAL, Arrive(c, x)) && s1 == Next(INITIAL, Arrive(c, x))
    ensures Permitted(s1, FirstBlock(c, x)) && s2 == Next(s1, FirstBlock(c, x))
    ensures Permitted(s2, Arrive(4, y)) && s3 == Next(s2, Arrive(4, y)) && BothWait(s3, c, x, y)
  {
    hide Permitted, Next, Begun, HalfSent, BothWait, INITIAL, FirstBlock;
    FirstArrival(c, x);
    s1 := Next(INITIAL, Arrive(c, x));
    FirstSent(s1, c, x);
    s2 := Next(s1, FirstBlock(c, x));
    SecondArrival(s2, c, x, y);
    s3 := Next(s2, Arrive(4, y));
  }

  lemma RunOfFour(s0: State, events: seq<Event>, s1: State, s2: State, s3: State)
    requires |events| == 4 && Permitted(s0, events[0]) && s1 == Next(s0, events[0])
    requires Permitted(s1, events[1]) && s2 == Next(s1, events[1])
    requires Permitted(s2, events[2]) && s3 == Next(s2, events[2]) && Permitted(s3, events[3])
    ensures IsRun(s0, events) && Exec(s0, events) == Next(s3, events[3])
  {
    hide Permitted, Next;
    var a, b, c := events[1..], events[1..][1..], events[1..][1..][1..];
    var t := Next(s3, events[3]);
    assert c[1..] == [];
    assert IsRun(t, []) && Exec(t, []) == t;
    assert IsRun(s3, c) && Exec(s3, c) == t;
    assert IsRun(s2, b) && Exec(s2, b) == t;
    assert IsRun(s1, a) && Exec(s1, a) == t;
  }

  // ----- the default bearer

  lemma MixedUp(s: State)
    requires BothWait(s, 3, [1, 2], [9])
    ensures var e := SecondBlock(3, [1, 2], [9], 101);
      && Permitted(s, e)
      && var t := Next(s, e); t.rx.delivered == [[1, 9], [2]] && Payloads(t.log) == [[9], [1, 2]]
  {
    hide OneField, Poll, HonestPolls, Round, CanPoll, Parse, FieldsOf, Representable, Air, Hear, Inv, Need, MergedSize,
      OpenSize, Receive;
    InvShaped(s);
    var e, p, q := SecondBlock(3, [1, 2], [9], 101), OneField([9], 0), OneField([2], 2);
    assert LastOctet([1, 2]) == [2];
    GatedFirst(s, [1, 2], [9], 101);
    OneFieldReads([9], 0);
    OneFieldReads([2], 2);
    TwoPdus(p, q, [9], [2]);
    ShortIsRepresentable(Lengths([[9], [2]]));
    HearBlock(s.rx, [p, q], 3, 2, 31, 101);
    TwoReceived(s.rx, [9], [2]);
    assert [1, 2][..1] + [9] == [1, 9];
    assert s.log + Round(s, e).log == Round(s, e).log;
  }

  /**
   With data on the default bearer: LCID 3 is never moved ahead of the gated bearer, so [1] of its SDU is
   glued to LCID 4's SDU.
   */
  lemma DefaultBearerMixes()
    ensures var run := Run(3, [1, 2], [9], 101);
      && IsRun(INITIAL, run)
      && var s := Exec(INITIAL, run);
      s.rx.delivered == [[1, 9], [2]] && Payloads(s.log) == [[9], [1, 2]] && !Delivered(s)
  {
    hide Permitted, Next, BothWait, INITIAL, FirstBlock, SecondBlock, IsRun, Exec;
    var s1, s2, s3 := ThreeEvents(3, [1, 2], [9]);
    MixedUp(s3);
    RunOfFour(INITIAL, Run(3, [1, 2], [9], 101), s1, s2, s3);
  }

  // ----- the header length

  lemma ZerosAppended(s: State)
    requires BothWait(s, 5, [1, 2], [9])
    ensures var e := SecondBlock(5, [1, 2], [9], 9);
      && Permitted(s, e) && UnfinishedFirst(s, e)
      && var t := Next(s, e); t.rx.delivered == [[1, 2], [9, 0, 0]] && Payloads(t.log) == [[1, 2], [9]]
  {
    hide OneField, Poll, HonestPolls, Round, CanPoll, Parse, FieldsOf, Representable, Air, Hear, Inv, Need, MergedSize,
      OpenSize, Receive, UnfinishedFirst;
    InvShaped(s);
    var e, p, q := SecondBlock(5, [1, 2], [9], 9), OneField([2], 2), OneField([9], 0);
    assert LastOctet([1, 2]) == [2];
    UnfinishedPolledFirst(s, [1, 2], [9], 9);
    OneFieldReads([9], 0);
    OneFieldReads([2], 2);
    TwoPdus(p, q, [2], [9]);
    ContinuesExactly(s, e);
    ShortIsRepresentable(Lengths([[2], [9]]));
    HearBlock(s.rx, [p, q], 5, 2, 31, 9);
    var fields: seq<seq<byte>> := [[2], [9]];
    assert fields[..1] == [[2]] && fields[1] + Zeros(2) == [9, 0, 0];
    assert Trailing(fields, 2) == [[2], [9, 0, 0]];
    assert !Exact([p, q], 31, 9);
    TwoReceived(s.rx, [2], [9, 0, 0]);
    assert [1, 2][..1] + [2] == [1, 2];
    assert s.log + Round(s, e).log == Round(s, e).log;
  }

  /** With data on LCIDs 4 and 5 only: the open SDU is continued first, but two zeros follow LCID 4's SDU. */
  lemma DedicatedBearersSpoiled()
    ensures var run := Run(5, [1, 2], [9], 9);
      && IsRun(INITIAL, run) && (forall i :: 0 <= i < 4 && run[i].Arrive? ==> 4 <= run[i].lcid <= 6)
      && var s := Exec(INITIAL, run);
      s.rx.delivered == [[1, 2], [9, 0, 0]] && Payloads(s.log) == [[1, 2], [9]] && !Delivered(s)
  {
    NoOtherArrival();
    hide Permitted, Next, BothWait, INITIAL, FirstBlock, SecondBlock, IsRun, Exec;
    var s1, s2, s3 := ThreeEvents(5, [1, 2], [9]);
    ZerosAppended(s3);
    RunOfFour(INITIAL, Run(5, [1, 2], [9], 9), s1, s2, s3);
  }

  lemma NoOtherArrival()
    ensures var run := Run(5, [1, 2], [9], 9); forall i :: 0 <= i < 4 && run[i].Arrive? ==> 4 <= run[i].lcid <= 6
  {
    hide OneField;
  }

  /** Two gathered PDUs of one octet in a block of nine: the UE reads [9, 0, 0] where [9] was gathered. */
  lemma TwoPdusSpoiled(sn: nat)
    requires sn < 1024
    ensures var m := MergedPdu([[2], [9]], 0, sn);
      && |m| == 6 && 3 + |m| + TaLen(31) <= 9
      && var r := MacPdu.ReadPdu(OnAir(9, 3, 31, m));
      && r.Some? && |r.value.sdus| == 1
      && Parse(r.value.sdus[0]) == Some(Umd(0, sn, [[2], [9, 0, 0]]))
  {
    hide Parse, MergedPdu, OnAir, MacPdu.ReadPdu, Concat;
    var fields: seq<seq<byte>> := [[2], [9]];
    ShortIsRepresentable(Lengths(fields));
    RepresentableReadsBack(fields, 0, sn);
    MergedLayout(fields, 0, sn);
    TwoPieces([2], [9]);
    UeReads(9, 3, 31, MergedPdu(fields, 0, sn));
    assert fields[..1] == [[2]] && fields[1] + Zeros(2) == [9, 0, 0];
    assert fields[..1] + [fields[1] + Zeros(2)] == [[2], [9, 0, 0]];
  }

  // ----- a length that the header cannot hold

  /** Two SDUs at LCID 4, the second of 2048 octets, each sent in a PDU of its own; plenty of room. */
  function LongBlock(): (r: Event) {
    Send(0, 3000, 31, [NOTHING, NOTHING, NOTHING, NOTHING, NOTHING, NOTHING, NOTHING, NOTHING, NOTHING,
                       Pdu(OneField([1], 0)), Pdu(OneField(Zeros(2048), 0)), NOTHING, NOTHING], 3000)
  }

  function LongRun(): (r: seq<Event>) {
    [Arrive(4, [1]), Arrive(4, Zeros(2048)), LongBlock()]
  }

  ghost predicate LongWaits(s: State) {
    && Inv(s) && s.fiInd == 0 && s.sn == 0 && s.log == [] && s.rx == Rx([], [])
    && 4 in s.bearers && s.bearers[4] == Bearer([[1], Zeros(2048)], 0) && OthersEmpty(s, {4})
  }

  lemma LongArrives(s: State)
    requires Begun(s, 4, [1])
    ensures Permitted(s, Arrive(4, Zeros(2048))) && LongWaits(Next(s, Arrive(4, Zeros(2048))))
  {
    NothingHeard(s);
    hide Inv;
    var e := Arrive(4, Zeros(2048));
    InvShaped(s);
    ArriveKeeps(s, e);
    assert Next(s, e).bearers[4].queue == [[1]] + [Zeros(2048)];
  }

  lemma NothingHeard(s: State)
    requires Inv(s) && s.fiInd == 0 && s.log == []
    ensures s.rx == Rx([], [])
  {
  }

  lemma LongPolled(bs: Bearers, o: seq<nat>, a: seq<Answer>)
    requires ValidBearers(bs) && 3 in bs && 4 in bs && bs[3] == Bearer([], 0) && bs[4] == Bearer([[1], Zeros(2048)], 0)
    requires o == [4, 4, 4, 3] && a == [Pdu(OneField([1], 0)), Pdu(OneField(Zeros(2048), 0)), NOTHING, NOTHING]
    ensures HonestPolls(bs, 2997, o, a)
    ensures var r := Poll(bs, 2997, o, a);
      r.pdus == [OneField([1], 0), OneField(Zeros(2048), 0)] && r.lcids == [4, 4] &&
          r.log == [(4, [1]), (4, Zeros(2048))]
  {
    hide OneField, Poll, HonestPolls;
    var long := Zeros(2048);
    assert [1][0..0 + 1] == [1] && long[0..0 + 2048] == long;
    var bs1 := bs[4 := Taken(bs[4], 1)];
    assert bs1[4] == Bearer([long], 0);
    var bs2 := bs1[4 := Taken(bs1[4], 2048)];
    assert bs2[4] == Bearer([], 0);
    var o1, a1, o2, a2 := o[1..], a[1..], o[1..][1..], a[1..][1..];
    var room := Behind(2997, 1);
    PollNone(bs2, Behind(room, 2048), o2[2..], a2[2..]);
    SkipEmpty(bs2, Behind(room, 2048), o2, a2, 2);
    TakeField(bs1, room, o1, a1, long, 0);
    TakeField(bs, 2997, o, a, [1], 0);
    assert Tag(4, [[1]]) + (Tag(4, [long]) + []) == [(4, [1]), (4, long)];
  }

  lemma LongRound(s: State)
    requires LongWaits(s)
    ensures CanPoll(s, LongBlock())
    ensures var r := Round(s, LongBlock());
      r.pdus == [OneField([1], 0), OneField(Zeros(2048), 0)] && r.lcids == [4, 4] &&
          r.log == [(4, [1]), (4, Zeros(2048))]
  {
    hide OneField, Poll, HonestPolls, Inv, Gated, Zeros;
    InvShaped(s);
    Gates();
    var bs, e, order := s.bearers, LongBlock(), FullOrder(0, 0);
    assert order[9..] == [4, 4, 4, 3];
    assert e.answers[9..] == [Pdu(OneField([1], 0)), Pdu(OneField(Zeros(2048), 0)), NOTHING, NOTHING];
    LongPolled(bs, order[9..], e.answers[9..]);
    SkipEmpty(bs, 2997, order, e.answers, 9);
  }

  lemma LongSent(s: State)
    requires LongWaits(s)
    ensures Permitted(s, LongBlock()) && UnfinishedFirst(s, LongBlock())
    ensures var t := Next(s, LongBlock());
      t.rx.delivered == [[1, 0], Zeros(2047)] && Payloads(t.log) == [[1], Zeros(2048)]
  {
    hide OneField, Poll, HonestPolls, Round, CanPoll, Parse, FieldsOf, Representable, Air, Hear, Inv, Need, MergedSize,
      OpenSize, Receive, MergedPdu, Zeros;
    InvShaped(s);
    var e, p, q := LongBlock(), OneField([1], 0), OneField(Zeros(2048), 0);
    LongRound(s);
    OneFieldReads([1], 0);
    OneFieldReads(Zeros(2048), 0);
    TwoPdus(p, q, [1], Zeros(2048));
    HearAny(s.rx, [p, q], 0, 1, 31, 3000);
    var m := MergedPdu([[1], Zeros(2048)], 0, 1);
    assert m + Zeros(0) == m;
    LongLastField(1, 0, 1);
    PlainReceived(s.rx, [1, 0], Zeros(2047));
    assert s.log + Round(s, e).log == Round(s, e).log;
  }

  lemma PlainReceived(rx: Rx, x: seq<byte>, y: seq<byte>)
    ensures Receive(rx, [x, y], false, false) == Rx([], rx.delivered + [x, y])
  {
    var fields := [x, y];
    assert fields[1..] == [y];
    assert [] + x == x && [] + y == y;
  }

  /** One bearer, room to spare, nothing unfinished: [1, 0] and 2047 octets come out for [1] and 2048. */
  lemma LongSduSpoiled()
    ensures IsRun(INITIAL, LongRun())
    ensures var s := Exec(INITIAL, LongRun());
      s.rx.delivered == [[1, 0], Zeros(2047)] && Payloads(s.log) == [[1], Zeros(2048)] && !Delivered(s)
  {
    hide Permitted, Next, Begun, LongWaits, INITIAL, LongBlock, Zeros;
    FirstArrival(4, [1]);
    var s1 := Next(INITIAL, Arrive(4, [1]));
    LongArrives(s1);
    var s2 := Next(s1, Arrive(4, Zeros(2048)));
    LongSent(s2);
    var t, run := Next(s2, LongBlock()), LongRun();
    var a, b := run[1..], run[1..][1..];
    assert b[1..] == [];
    assert IsRun(t, []) && Exec(t, []) == t;
    assert IsRun(s2, b) && Exec(s2, b) == t;
    assert IsRun(s1, a) && Exec(s1, a) == t;
    assert [1, 0] != [1];
  }

  // ----- two failures that cancel

  /** The last step of the run: LCID 3 loses its turn, and the length of LCID 4's SDU cannot be held. */
  lemma BothFail(s: State)
    requires BothWait(s, 3, Zeros(2049), Zeros(2049))
    ensures var e := SecondBlock(3, Zeros(2049), Zeros(2049), 2149);
      && Permitted(s, e) && !Legible(Round(s, e).pdus) && !UnfinishedFirst(s, e)
      && var t := Next(s, e);
      && t.rx == Rx([], [Zeros(2049), Zeros(2049)]) && t.fiInd == 0 && Payloads(t.log) == t.rx.delivered
      && t.bearers == s.bearers[4 := Bearer([], 0)][3 := Bearer([], 0)]
  {
    hide OneField, Poll, HonestPolls, Round, CanPoll, Parse, FieldsOf, Air, Hear, Inv, Need, MergedSize,
      OpenSize, Receive, MergedPdu, Zeros, UnfinishedFirst;
    InvShaped(s);
    var z := Zeros(2049);
    var e, p, q := SecondBlock(3, z, z, 2149), OneField(z, 0), OneField([0], 2);
    assert LastOctet(z) == [0];
    GatedFirst(s, z, z, 2149);
    OneFieldReads(z, 0);
    OneFieldReads([0], 2);
    TwoPdus(p, q, z, [0]);
    assert Lengths([z, [0]])[0] == 2049;
    ContinuesExactly(s, e);
    HearAny(s.rx, [p, q], 3, 2, 31, 2149);
    var m := MergedPdu([z, [0]], 2, 2);
    assert m + Zeros(0) == m;
    LongFirstField(2, 2);
    TwoReceived(s.rx, [0], z);
    assert z[..2048] + [0] == z;
    assert s.log + Round(s, e).log == Round(s, e).log;
  }

  /** All zeros: what the lost turn puts in front of LCID 4's SDU is what the header takes away from it. */
  lemma TwoWrongsCancel()
    ensures var z := Zeros(2049); var run := Run(3, z, z, 2149);
      IsRun(INITIAL, run) && !AlwaysKept(INITIAL, run) && Inv(Exec(INITIAL, run))
  {
    hide Permitted, Next, BothWait, INITIAL, FirstBlock, SecondBlock, IsRun, Exec, Zeros, Kept, Inv;
    var z := Zeros(2049);
    var run := Run(3, z, z, 2149);
    var s1, s2, s3 := ThreeEvents(3, z, z);
    BothFail(s3);
    RunOfFour(INITIAL, run, s1, s2, s3);
    IsSend(z);
    NotKept(s3, run[3]);
    LastNotKept(INITIAL, run, s1, s2, s3);
    BackInStep(s3, z);
  }

  lemma NotKept(s: State, e: Event)
    requires Permitted(s, e) && e.Send? && !UnfinishedFirst(s, e)
    ensures !Kept(s, e)
  {
  }

  lemma LastNotKept(s0: State, events: seq<Event>, s1: State, s2: State, s3: State)
    requires |events| == 4 && IsRun(s0, events) && s1 == Next(s0, events[0])
    requires Permitted(s1, events[1]) && s2 == Next(s1, events[1])
    requires Permitted(s2, events[2]) && s3 == Next(s2, events[2]) && Permitted(s3, events[3]) && !Kept(s3, events[3])
    ensures !AlwaysKept(s0, events)
  {
    hide Permitted, Next, Kept;
    var a, b, c := events[1..], events[1..][1..], events[1..][1..][1..];
    assert IsRun(s1, a) && IsRun(s2, b) && IsRun(s3, c);
    assert !AlwaysKept(s3, c);
    assert !AlwaysKept(s2, b);
    assert !AlwaysKept(s1, a);
  }

  lemma BackInStep(s: State, z: seq<byte>)
    requires z == Zeros(2049) && BothWait(s, 3, z, z)
    requires var e := SecondBlock(3, z, z, 2149);
      && Permitted(s, e)
      && var t := Next(s, e);
      && t.rx == Rx([], [z, z]) && t.fiInd == 0 && Payloads(t.log) == t.rx.delivered
      && t.bearers == s.bearers[4 := Bearer([], 0)][3 := Bearer([], 0)]
    ensures Inv(Next(s, SecondBlock(3, z, z, 2149)))
  {
    hide OneField, Poll, HonestPolls, FullOrder, Air, Hear, Need, MergedSize, Project, Zeros, Mergeable, SecondBlock;
    var e := SecondBlock(3, z, z, 2149);
    IsSend(z);
    LogConserves(s, e);
    KeptShape(s, e);
  }

  lemma IsSend(z: seq<byte>)
    requires z != []
    ensures SecondBlock(3, z, z, 2149).Send?
  {
    hide OneField;
  }

  lemma KeptShape(s: State, e: Event)
    requires Inv(s) && Permitted(s, e) && e.Send? && Next(s, e).fiInd == 0 && Next(s, e).rx.partial == []
    requires Next(s, e).rx.delivered == Payloads(Next(s, e).log)
    requires forall l :: l in Next(s, e).bearers ==> Next(s, e).bearers[l].offset == 0
    requires var r := Round(s, e);
      forall l :: l in s.bearers ==> l in r.bearers && s.accepted[l] == Project(s.log + r.log, l) + r.bearers[l].queue
    ensures Inv(Next(s, e))
  {
    hide Poll, HonestPolls, FullOrder, Air, Hear, Need, Project, FieldsOf, AllWellFormed, FiOf, RlcMerge.MergedFi,
      EndsInside, NoSignalling;
    PollShape(s.bearers, Offer(e), FullOrder(e.t, s.fiInd), e.answers);
    if Round(s, e).pdus == [] {
      PollSilent(s.bearers, Offer(e), FullOrder(e.t, s.fiInd), e.answers);
      assert s.log + [] == s.log;
    }
  }
}
