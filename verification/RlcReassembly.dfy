/**
 The merged PDUs of all blocks as one UM stream. Transmitting side: RLC bearers holding SDUs
 and the poll order that puts the bearer of an unfinished SDU first. Receiving side: the
 reassembly by FI of section 6.2.2.6 of 3GPP TS 36.322.
 */
module RlcReassembly {
  import opened Bytes
  import opened RlcUmd
  import opened RlcMeaning
  import opened DlGather

  // ----- an RLC bearer and its contract

  /** SDUs not yet handed over; `offset` octets of the first one are already gone. */
  datatype Bearer = Bearer(queue: seq<seq<byte>>, offset: nat)

  predicate ValidBearer(b: Bearer) {
    && (forall i :: 0 <= i < |b.queue| ==> b.queue[i] != [])
    && (b.offset > 0 ==> b.queue != [] && b.offset < |b.queue[0]|)
  }

  /** What is left of the i-th SDU. */
  function Left(b: Bearer, i: nat): (r: seq<byte>)
    requires ValidBearer(b) && i < |b.queue|
    ensures r != []
  {
    if i == 0 then b.queue[0][b.offset..] else b.queue[i]
  }

  predicate StartsInside(fi: nat) { fi / 2 == 1 }
  predicate EndsInside(fi: nat) { fi % 2 == 1 }

  /** The fields are what is left of the first SDUs, the last one possibly cut short. */
  predicate Carries(b: Bearer, fields: seq<seq<byte>>)
    requires ValidBearer(b)
  {
    && 0 < |fields| <= |b.queue|
    && (forall i :: 0 <= i < |fields| - 1 ==> fields[i] == Left(b, i))
    && fields[|fields| - 1] != []
    && fields[|fields| - 1] <= Left(b, |fields| - 1)
  }

  predicate CutShort(b: Bearer, fields: seq<seq<byte>>)
    requires ValidBearer(b) && Carries(b, fields)
  {
    fields[|fields| - 1] != Left(b, |fields| - 1)
  }

  function After(b: Bearer, fields: seq<seq<byte>>): (r: Bearer)
    requires ValidBearer(b) && Carries(b, fields)
    ensures ValidBearer(r)
  {
    var n := |fields|;
    if CutShort(b, fields) then
      Bearer(b.queue[n - 1..], (if n == 1 then b.offset else 0) + |fields[n - 1]|)
    else Bearer(b.queue[n..], 0)
  }

  /** SDUs that are complete on the transmitting side with these fields. */
  function Completed(b: Bearer, fields: seq<seq<byte>>): (r: seq<seq<byte>>)
    requires ValidBearer(b) && Carries(b, fields)
  {
    b.queue[..if CutShort(b, fields) then |fields| - 1 else |fields|]
  }

  /**
   RLC's contract for one poll: within the offer, mid-SDU only when the offer is filled, silent only
   for a reason.
   */
  predicate Honest(b: Bearer, offer: int, a: Answer)
    requires ValidBearer(b)
  {
    match a
    case NoBytes => b.queue == [] || offer < 3
    case Pdu(octets) =>
      && Parse(octets).Some? && |octets| <= offer
      && var u := Parse(octets).value;
      && Carries(b, u.fields)
      && (StartsInside(u.fi) <==> b.offset > 0)
      && (EndsInside(u.fi) <==> CutShort(b, u.fields))
      && (EndsInside(u.fi) ==> |octets| == offer)
  }

  // ----- the receiver

  datatype Rx = Rx(partial: seq<byte>, delivered: seq<seq<byte>>)

  /** Section 6.2.2.6: only the first field may continue an SDU, only the last may be unfinished. */
  function Receive(rx: Rx, fields: seq<seq<byte>>, startsInside: bool, endsInside: bool): (r: Rx)
    requires fields != []
    decreases |fields|
  {
    var sdu := (if startsInside then rx.partial else []) + fields[0];
    if |fields| == 1 then
      if endsInside then Rx(sdu, rx.delivered) else Rx([], rx.delivered + [sdu])
    else Receive(Rx([], rx.delivered + [sdu]), fields[1..], false, endsInside)
  }

  function ReceivePdu(rx: Rx, p: seq<byte>): (r: Rx)
    requires WellFormed(p)
  {
    var u := Parse(p).value;
    Receive(rx, u.fields, StartsInside(u.fi), EndsInside(u.fi))
  }

  /** Two runs of fields that meet at an SDU boundary can be received as one. */
  lemma {:induction false} ReceiveJoined(rx: Rx, a: seq<seq<byte>>, b: seq<seq<byte>>, startsInside: bool,
      endsInside: bool)
    requires a != [] && b != []
    ensures Receive(rx, a + b, startsInside, endsInside) ==
            Receive(Receive(rx, a, startsInside, false), b, false, endsInside)
    decreases |a|
  {
    var sdu := (if startsInside then rx.partial else []) + a[0];
    if |a| == 1 {
      assert (a + b)[1..] == b;
    } else {
      assert (a + b)[1..] == a[1..] + b;
      ReceiveJoined(Rx([], rx.delivered + [sdu]), a[1..], b, false, endsInside);
    }
  }

  /** The octets of the first SDU that are already gone. */
  function Gone(b: Bearer): (r: seq<byte>)
    requires ValidBearer(b)
  {
    if b.offset > 0 then b.queue[0][..b.offset] else []
  }

  /** The bearer once its first SDU is out. */
  function Rest(b: Bearer): (r: Bearer)
    requires ValidBearer(b) && b.queue != []
    ensures ValidBearer(r)
  {
    Bearer(b.queue[1..], 0)
  }

  lemma RestCarries(b: Bearer, fields: seq<seq<byte>>)
    requires ValidBearer(b) && Carries(b, fields) && |fields| > 1
    ensures Carries(Rest(b), fields[1..])
    ensures CutShort(Rest(b), fields[1..]) == CutShort(b, fields)
    ensures fields[0] == b.queue[0][b.offset..]
  {
    var c := Rest(b);
    assert fields[0] == Left(b, 0);
    forall i | 0 <= i < |fields| - 2 ensures fields[1..][i] == Left(c, i) {
      assert fields[i + 1] == Left(b, i + 1);
    }
    assert Left(c, |fields| - 2) == Left(b, |fields| - 1);
  }

  lemma RestAfter(b: Bearer, fields: seq<seq<byte>>)
    requires ValidBearer(b) && Carries(b, fields) && |fields| > 1 && Carries(Rest(b), fields[1..])
    requires CutShort(Rest(b), fields[1..]) == CutShort(b, fields)
    ensures After(Rest(b), fields[1..]) == After(b, fields)
    ensures [b.queue[0]] + Completed(Rest(b), fields[1..]) == Completed(b, fields)
  {
    var n := |fields|;
    assert n <= |b.queue|;
    hide Carries, CutShort;
    assert Rest(b).queue[n - 2..] == b.queue[n - 1..];
    assert Rest(b).queue[n - 1..] == b.queue[n..];
  }

  lemma ReceiveSingle(rx: Rx, b: Bearer, fields: seq<seq<byte>>)
    requires ValidBearer(b) && Carries(b, fields) && |fields| == 1
    requires b.offset > 0 ==> rx.partial == Gone(b)
    ensures Receive(rx, fields, b.offset > 0, CutShort(b, fields)) ==
            Rx(Gone(After(b, fields)), rx.delivered + Completed(b, fields))
  {
    var sdu := (if b.offset > 0 then rx.partial else []) + fields[0];
    if CutShort(b, fields) {
      assert sdu == b.queue[0][..b.offset + |fields[0]|];
    } else {
      assert sdu == b.queue[0];
      assert Completed(b, fields) == [b.queue[0]];
    }
  }

  /** One PDU of one bearer: complete SDUs come out whole, an unfinished one stays in the buffer. */
  lemma {:induction false} ReceiveOne(rx: Rx, b: Bearer, fields: seq<seq<byte>>)
    requires ValidBearer(b) && Carries(b, fields)
    requires b.offset > 0 ==> rx.partial == Gone(b)
    ensures Receive(rx, fields, b.offset > 0, CutShort(b, fields)) ==
            Rx(Gone(After(b, fields)), rx.delivered + Completed(b, fields))
    decreases |fields|
  {
    if |fields| == 1 {
      ReceiveSingle(rx, b, fields);
    } else {
      RestCarries(b, fields);
      RestAfter(b, fields);
      hide Completed, After, CutShort;
      var sdu := (if b.offset > 0 then rx.partial else []) + fields[0];
      assert sdu == b.queue[0];
      ReceiveOne(Rx([], rx.delivered + [sdu]), Rest(b), fields[1..]);
      assert rx.delivered + [sdu] + Completed(Rest(b), fields[1..]) == rx.delivered + Completed(b, fields);
    }
  }

  // ----- one block

  type Bearers = map<nat, Bearer>

  ghost predicate ValidBearers(bs: Bearers) {
    forall l :: l in bs ==> ValidBearer(bs[l])
  }

  function Served(b: Bearer, a: Answer): (r: Bearer)
    requires ValidBearer(b)
    requires a.Pdu? ==> WellFormed(a.octets) && Carries(b, Parse(a.octets).value.fields)
    ensures ValidBearer(r)
  {
    match a
    case NoBytes => b
    case Pdu(octets) => After(b, Parse(octets).value.fields)
  }

  function RoomAfter(room: int, a: Answer): (r: int) {
    match a
    case NoBytes => room
    case Pdu(octets) => room - |octets| - SubheaderLen(|octets|)
  }

  /** Every bearer keeps RLC's contract, poll after poll. */
  ghost predicate HonestPolls(bs: Bearers, room: int, order: seq<nat>, answers: seq<Answer>)
    requires ValidBearers(bs) && |answers| == |order|
    decreases |order|
  {
    order == [] || room <= 0 ||
    ( && order[0] in bs && Honest(bs[order[0]], room, answers[0])
      && HonestPolls(bs[order[0] := Served(bs[order[0]], answers[0])], RoomAfter(room, answers[0]), order[1..],
          answers[1..]))
  }

  /** What a round of polls takes: the PDUs with their LCIDs, and the SDUs completed by them, in order. */
  datatype Polled = Polled(bearers: Bearers, pdus: seq<seq<byte>>, lcids: seq<nat>, log: seq<(nat, seq<byte>)>)

  function Tag(l: nat, sdus: seq<seq<byte>>): (r: seq<(nat, seq<byte>)>)
    ensures |r| == |sdus|
    ensures forall i :: 0 <= i < |r| ==> r[i] == (l, sdus[i])
  {
    seq(|sdus|, i requires 0 <= i < |sdus| => (l, sdus[i]))
  }

  ghost function Poll(bs: Bearers, room: int, order: seq<nat>, answers: seq<Answer>): (r: Polled)
    requires ValidBearers(bs) && |answers| == |order| && HonestPolls(bs, room, order, answers)
    decreases |order|
  {
    if order == [] || room <= 0 then Polled(bs, [], [], [])
    else
      var l, b, a := order[0], bs[order[0]], answers[0];
      var r := Poll(bs[l := Served(b, a)], RoomAfter(room, a), order[1..], answers[1..]);
      match a
      case NoBytes => r
      case Pdu(octets) =>
        Polled(r.bearers, [octets] + r.pdus, [l] + r.lcids, Tag(l, Completed(b, Parse(octets).value.fields)) + r.log)
  }

  lemma RoomTaken(tbs: nat, taLen: nat, b: Block, l: nat, a: Answer)
    ensures Room(tbs, taLen, Take(b, l, a)) == RoomAfter(Room(tbs, taLen, b), a)
  {
  }

  lemma HonestWithin(b: Bearer, room: int, a: Answer)
    requires ValidBearer(b) && Honest(b, room, a)
    ensures a.Pdu? ==> WellFormed(a.octets) && Carries(b, Parse(a.octets).value.fields) && |a.octets| <= room
  {
    hide Parse;
  }

  /** The polls are those of the block-gathering loop. */
  lemma {:induction false} PollIsGather(bs: Bearers, tbs: nat, taLen: nat, b: Block, order: seq<nat>,
      answers: seq<Answer>)
    requires ValidBearers(bs) && |answers| == |order|
    requires HonestPolls(bs, Room(tbs, taLen, b), order, answers)
    ensures WithinOffers(tbs, taLen, b, order, answers)
    ensures var r := Poll(bs, Room(tbs, taLen, b), order, answers); var g := Gather(tbs, taLen, b, order, answers);
      g.pdus == b.pdus + r.pdus && g.lcids == b.lcids + r.lcids
    decreases |order|
  {
    hide Room, Parse, Completed, CutShort, Carries, Concat, Honest;
    var room := Room(tbs, taLen, b);
    if order != [] && room > 0 {
      var l, a := order[0], answers[0];
      var c := Take(b, l, a);
      RoomTaken(tbs, taLen, b, l, a);
      HonestWithin(bs[l], room, a);
      PollIsGather(bs[l := Served(bs[l], a)], tbs, taLen, c, order[1..], answers[1..]);
    }
  }

  // ----- what one round of polls does to the stream

  /** No bearer is in the middle of an SDU. */
  ghost predicate Fresh(bs: Bearers) {
    forall l :: l in bs ==> bs[l].offset == 0
  }

  /** Exactly bearer c is in the middle of an SDU. */
  ghost predicate OpenAt(bs: Bearers, c: nat) {
    && c in bs && bs[c].offset > 0
    && forall l :: l in bs && l != c ==> bs[l].offset == 0
  }

  function Payloads(log: seq<(nat, seq<byte>)>): (r: seq<seq<byte>>)
    ensures |r| == |log|
  {
    seq(|log|, i requires 0 <= i < |log| => log[i].1)
  }

  /** PDUs one by one, as if each had been sent on its own. */
  function ReceiveAll(rx: Rx, pdus: seq<seq<byte>>): (r: Rx)
    requires forall i :: 0 <= i < |pdus| ==> WellFormed(pdus[i])
    decreases |pdus|
  {
    if pdus == [] then rx else ReceiveAll(ReceivePdu(rx, pdus[0]), pdus[1..])
  }

  function FiOf(p: seq<byte>): (r: nat)
    requires WellFormed(p)
    ensures r < 4
  {
    Parse(p).value.fi
  }

  /** PDUs that can be glued: all meet at SDU boundaries. */
  predicate Gluable(pdus: seq<seq<byte>>) {
    && (forall i :: 0 <= i < |pdus| ==> WellFormed(pdus[i]))
    && (forall i :: 0 < i < |pdus| ==> !StartsInside(FiOf(pdus[i])))
    && (forall i :: 0 <= i < |pdus| - 1 ==> !EndsInside(FiOf(pdus[i])))
  }

  /**
   State of bearers and receiver after a round: open at the last LCID exactly if the last PDU ends
   inside an SDU.
   */
  ghost predicate Settled(bs: Bearers, rx: Rx, pdus: seq<seq<byte>>, lcids: seq<nat>)
    requires ValidBearers(bs) && pdus != [] && |lcids| == |pdus| && Gluable(pdus)
  {
    var n := |pdus|;
    if EndsInside(FiOf(pdus[n - 1])) then OpenAt(bs, lcids[n - 1]) && rx.partial == Gone(bs[lcids[n - 1]])
    else Fresh(bs) && rx.partial == []
  }

  lemma PollShape(bs: Bearers, room: int, order: seq<nat>, answers: seq<Answer>)
    requires ValidBearers(bs) && |answers| == |order| && HonestPolls(bs, room, order, answers)
    ensures var r := Poll(bs, room, order, answers);
      && ValidBearers(r.bearers) && r.bearers.Keys == bs.Keys
      && |r.lcids| == |r.pdus|
      && (forall i :: 0 <= i < |r.pdus| ==> WellFormed(r.pdus[i]))
    decreases |order|
  {
    if order != [] && room > 0 {
      PollShape(bs[order[0] := Served(bs[order[0]], answers[0])], RoomAfter(room, answers[0]), order[1..],
          answers[1..]);
    }
  }

  /** A PDU that ends inside an SDU has used up the room. */
  lemma CutShortEnds(b: Bearer, room: int, a: Answer)
    requires ValidBearer(b) && a.Pdu? && Honest(b, room, a) && CutShort(b, Parse(a.octets).value.fields)
    ensures RoomAfter(room, a) <= 0
  {
  }

  /** From a state where no SDU is open. */
  lemma {:induction false} PollFresh(bs: Bearers, room: int, order: seq<nat>, answers: seq<Answer>, rx: Rx)
    requires ValidBearers(bs) && |answers| == |order| && HonestPolls(bs, room, order, answers) && Fresh(bs)
    ensures var r := Poll(bs, room, order, answers);
      && ValidBearers(r.bearers) && |r.lcids| == |r.pdus| && Gluable(r.pdus)
      && (r.pdus != [] ==> !StartsInside(FiOf(r.pdus[0])))
      && ReceiveAll(rx, r.pdus).delivered == rx.delivered + Payloads(r.log)
      && if r.pdus == [] then r.bearers == bs && r.log == []
         else Settled(r.bearers, ReceiveAll(rx, r.pdus), r.pdus, r.lcids)
    decreases |order|
  {
    if order != [] && room > 0 {
      var l, b, a := order[0], bs[order[0]], answers[0];
      var bs', room' := bs[l := Served(b, a)], RoomAfter(room, a);
      match a
      case NoBytes =>
        assert bs' == bs;
        PollFresh(bs', room', order[1..], answers[1..], rx);
      case Pdu(octets) =>
        PollTail(bs, room, order, answers, rx);
    }
  }

  /**
   First a PDU of some bearer, then the rest of the round, which starts at an SDU boundary or not at
   all.
   */
  lemma {:induction false} PollTail(bs: Bearers, room: int, order: seq<nat>, answers: seq<Answer>, rx: Rx)
    requires ValidBearers(bs) && |answers| == |order| && HonestPolls(bs, room, order, answers)
    requires order != [] && room > 0 && answers[0].Pdu?
    requires Fresh(bs) || (OpenAt(bs, order[0]) && rx.partial == Gone(bs[order[0]]))
    ensures var r := Poll(bs, room, order, answers);
      && ValidBearers(r.bearers) && |r.lcids| == |r.pdus| && Gluable(r.pdus) && r.pdus != [] && r.lcids[0] == order[0]
      && (StartsInside(FiOf(r.pdus[0])) <==> bs[order[0]].offset > 0)
      && ReceiveAll(rx, r.pdus).delivered == rx.delivered + Payloads(r.log)
      && Settled(r.bearers, ReceiveAll(rx, r.pdus), r.pdus, r.lcids)
    decreases |order|, 0
  {
    hide Parse, Poll, Served, Completed, CutShort, RoomAfter, Settled, Gluable, Receive, ReceiveAll, Fresh, OpenAt;
    PollUnfold(bs, room, order, answers);
    var l, b, a := order[0], bs[order[0]], answers[0];
    var bs', room' := bs[l := Served(b, a)], RoomAfter(room, a);
    var rx' := ReceivePdu(rx, a.octets);
    var tail := Poll(bs', room', order[1..], answers[1..]);
    FirstPdu(bs, room, l, a, rx);
    var done := Completed(b, Parse(a.octets).value.fields);
    if room' <= 0 {
      PollNothing(bs', room', order[1..], answers[1..], rx');
    } else {
      PollFresh(bs', room', order[1..], answers[1..], rx');
    }
    Prepend(a.octets, l, tail.pdus, tail.lcids, tail.bearers, rx, rx');
    assert rx.delivered + done + Payloads(tail.log) == rx.delivered + (done + Payloads(tail.log));
  }

  lemma PollNone(bs: Bearers, room: int, order: seq<nat>, answers: seq<Answer>)
    requires ValidBearers(bs) && |answers| == |order| && (order == [] || room <= 0)
    ensures HonestPolls(bs, room, order, answers) && Poll(bs, room, order, answers) == Polled(bs, [], [], [])
  {
  }

  lemma PollSkip(bs: Bearers, room: int, order: seq<nat>, answers: seq<Answer>)
    requires ValidBearers(bs) && |answers| == |order| && HonestPolls(bs, room, order, answers)
    requires order != [] && room > 0 && answers[0].NoBytes?
    ensures order[0] in bs && (bs[order[0]].queue == [] || room < 3)
    ensures HonestPolls(bs, room, order[1..], answers[1..])
    ensures Poll(bs, room, order, answers) == Poll(bs, room, order[1..], answers[1..])
  {
    assert bs[order[0] := Served(bs[order[0]], answers[0])] == bs;
  }

  lemma PollNothing(bs: Bearers, room: int, order: seq<nat>, answers: seq<Answer>, rx: Rx)
    requires ValidBearers(bs) && |answers| == |order| && room <= 0
    ensures HonestPolls(bs, room, order, answers) && Poll(bs, room, order, answers) == Polled(bs, [], [], [])
    ensures Gluable([]) && ReceiveAll(rx, []) == rx
  {
  }

  lemma PollUnfold(bs: Bearers, room: int, order: seq<nat>, answers: seq<Answer>)
    requires ValidBearers(bs) && |answers| == |order| && HonestPolls(bs, room, order, answers)
    requires order != [] && room > 0 && answers[0].Pdu?
    ensures var l := order[0]; var a := answers[0];
      && l in bs && Honest(bs[l], room, a) && WellFormed(a.octets) && Carries(bs[l], Parse(a.octets).value.fields)
      && var bs' := bs[l := Served(bs[l], a)]; var room' := RoomAfter(room, a);
          var done := Completed(bs[l], Parse(a.octets).value.fields);
      && HonestPolls(bs', room', order[1..], answers[1..])
      && var tail := Poll(bs', room', order[1..], answers[1..]); var r := Poll(bs, room, order, answers);
      && r.bearers == tail.bearers && r.pdus == [a.octets] + tail.pdus && r.lcids == [l] + tail.lcids
      && r.log == Tag(l, done) + tail.log && Payloads(r.log) == done + Payloads(tail.log)
  {
    hide Parse, Completed, After, Carries;
  }

  /** The first PDU alone: what the receiver has then, and which bearer is open. */
  lemma FirstPdu(bs: Bearers, room: int, l: nat, a: Answer, rx: Rx)
    requires ValidBearers(bs) && l in bs && a.Pdu? && Honest(bs[l], room, a)
    requires Fresh(bs) || (OpenAt(bs, l) && rx.partial == Gone(bs[l]))
    ensures var b := bs[l]; var fields := Parse(a.octets).value.fields; var bs' := bs[l := Served(b, a)];
      && WellFormed(a.octets) && ValidBearers(bs')
      && (StartsInside(FiOf(a.octets)) <==> b.offset > 0)
      && (EndsInside(FiOf(a.octets)) <==> CutShort(b, fields))
      && ReceivePdu(rx, a.octets) == Rx(Gone(bs'[l]), rx.delivered + Completed(b, fields))
      && (CutShort(b, fields) ==> RoomAfter(room, a) <= 0 && OpenAt(bs', l))
      && (!CutShort(b, fields) ==> Fresh(bs') && Gone(bs'[l]) == [])
  {
    hide Parse, Receive;
    var b, fields := bs[l], Parse(a.octets).value.fields;
    ReceiveOne(rx, b, fields);
    if CutShort(b, fields) { CutShortEnds(b, room, a); }
  }

  /** A PDU that ends at a boundary in front of a gluable round, or any PDU in front of none. */
  lemma Prepend(p: seq<byte>, l: nat, pdus: seq<seq<byte>>, lcids: seq<nat>, bs: Bearers, rx: Rx, rx': Rx)
    requires WellFormed(p) && rx' == ReceivePdu(rx, p) && ValidBearers(bs) && |lcids| == |pdus| && Gluable(pdus)
    requires pdus != [] ==>
      !EndsInside(FiOf(p)) && !StartsInside(FiOf(pdus[0])) && Settled(bs, ReceiveAll(rx', pdus), pdus, lcids)
    requires pdus == [] ==>
      if EndsInside(FiOf(p)) then OpenAt(bs, l) && rx'.partial == Gone(bs[l]) else Fresh(bs) && rx'.partial == []
    ensures Gluable([p] + pdus) && ReceiveAll(rx, [p] + pdus) == ReceiveAll(rx', pdus)
    ensures Settled(bs, ReceiveAll(rx, [p] + pdus), [p] + pdus, [l] + lcids)
  {
    hide Parse, ReceivePdu, WellFormed, FiOf;
    var all := [p] + pdus;
    assert all[1..] == pdus && all[0] == p;
    assert forall i :: 0 < i < |all| ==> all[i] == pdus[i - 1];
    assert forall i :: 0 <= i < |all| ==> WellFormed(all[i]);
  }

  /** From a state where bearer c is in the middle of an SDU, provided that c supplies the first PDU. */
  lemma {:induction false} PollOpen(bs: Bearers, room: int, order: seq<nat>, answers: seq<Answer>, rx: Rx, c: nat)
    requires ValidBearers(bs) && |answers| == |order| && HonestPolls(bs, room, order, answers)
    requires OpenAt(bs, c) && rx.partial == Gone(bs[c])
    requires var r := Poll(bs, room, order, answers); r.lcids != [] ==> r.lcids[0] == c
    ensures var r := Poll(bs, room, order, answers);
      && ValidBearers(r.bearers) && |r.lcids| == |r.pdus| && Gluable(r.pdus)
      && (r.pdus != [] ==> StartsInside(FiOf(r.pdus[0])))
      && ReceiveAll(rx, r.pdus).delivered == rx.delivered + Payloads(r.log)
      && if r.pdus == [] then r.bearers == bs && r.log == []
         else Settled(r.bearers, ReceiveAll(rx, r.pdus), r.pdus, r.lcids)
    decreases |order|
  {
    hide Parse, Settled, Gluable, Receive;
    if order == [] || room <= 0 {
      assert Gluable([]) by { PollNothing(bs, 0, order, answers, rx); }
    } else {
      var l, a := order[0], answers[0];
      if a.NoBytes? {
        assert bs[l := Served(bs[l], a)] == bs;
        PollOpen(bs, room, order[1..], answers[1..], rx, c);
      } else {
        PollUnfold(bs, room, order, answers);
        PollTail(bs, room, order, answers, rx);
      }
    }
  }

  // ----- nothing is lost between queue and log

  /** The SDUs of one bearer in a log. */
  function Project(log: seq<(nat, seq<byte>)>, l: nat): (r: seq<seq<byte>>) {
    if log == [] then []
    else (if log[0].0 == l then [log[0].1] else []) + Project(log[1..], l)
  }

  lemma {:induction false} ProjectAppend(a: seq<(nat, seq<byte>)>, b: seq<(nat, seq<byte>)>, l: nat)
    ensures Project(a + b, l) == Project(a, l) + Project(b, l)
    decreases |a|
  {
    if a == [] {
      assert a + b == b;
    } else {
      assert (a + b)[1..] == a[1..] + b;
      ProjectAppend(a[1..], b, l);
    }
  }

  lemma {:induction false} ProjectTag(sdus: seq<seq<byte>>, m: nat, l: nat)
    ensures Project(Tag(m, sdus), l) == if m == l then sdus else []
    decreases |sdus|
  {
    if sdus != [] {
      assert Tag(m, sdus)[1..] == Tag(m, sdus[1..]);
      ProjectTag(sdus[1..], m, l);
      assert [sdus[0]] + sdus[1..] == sdus;
    }
  }

  lemma {:induction false} PollConserves(bs: Bearers, room: int, order: seq<nat>, answers: seq<Answer>, l: nat)
    requires ValidBearers(bs) && |answers| == |order| && HonestPolls(bs, room, order, answers) && l in bs
    ensures var r := Poll(bs, room, order, answers);
      l in r.bearers && bs[l].queue == Project(r.log, l) + r.bearers[l].queue
    decreases |order|
  {
    hide Parse, CutShort, Completed, Project, Tag, Poll, HonestPolls, Honest, RoomAfter, Served, Carries;
    if order == [] || room <= 0 {
      PollNone(bs, room, order, answers);
      assert Project([], l) == [] by { ProjectTag([], 0, l); assert Tag(0, []) == []; }
    } else if answers[0].NoBytes? {
      PollSkip(bs, room, order, answers);
      PollConserves(bs, room, order[1..], answers[1..], l);
    } else {
      PollUnfold(bs, room, order, answers);
      var m, a := order[0], answers[0];
      var bs', done := bs[m := Served(bs[m], a)], Completed(bs[m], Parse(a.octets).value.fields);
      var tail := Poll(bs', RoomAfter(room, a), order[1..], answers[1..]);
      PollConserves(bs', RoomAfter(room, a), order[1..], answers[1..], l);
      ServedQueue(bs[m], a);
      ProjectTag(done, m, l);
      ProjectAppend(Tag(m, done), tail.log, l);
      assert done + (Project(tail.log, l) + tail.bearers[l].queue) ==
          done + Project(tail.log, l) + tail.bearers[l].queue;
    }
  }

  lemma ServedQueue(b: Bearer, a: Answer)
    requires ValidBearer(b) && a.Pdu? && WellFormed(a.octets) && Carries(b, Parse(a.octets).value.fields)
    ensures Completed(b, Parse(a.octets).value.fields) + Served(b, a).queue == b.queue
  {
    hide Parse, CutShort;
  }

  // ----- one merged PDU instead of several

  lemma {:induction false} ReceiveAllAppend(rx: Rx, pdus: seq<seq<byte>>, p: seq<byte>)
    requires forall i :: 0 <= i < |pdus| ==> WellFormed(pdus[i])
    requires WellFormed(p)
    ensures forall i :: 0 <= i < |pdus| + 1 ==> WellFormed((pdus + [p])[i])
    ensures ReceiveAll(rx, pdus + [p]) == ReceivePdu(ReceiveAll(rx, pdus), p)
    decreases |pdus|
  {
    hide WellFormed, ReceivePdu;
    var all := pdus + [p];
    assert forall i :: 0 <= i < |all| ==> WellFormed(all[i]);
    if pdus == [] {
      assert all[1..] == [];
    } else {
      assert all[1..] == pdus[1..] + [p];
      ReceiveAllAppend(ReceivePdu(rx, pdus[0]), pdus[1..], p);
    }
  }

  /** Gluable PDUs are received alike one by one or as one PDU with all their fields. */
  lemma {:induction false} ReceiveMerged(rx: Rx, pdus: seq<seq<byte>>)
    requires pdus != [] && Gluable(pdus) && AllWellFormed(pdus)
    ensures FieldsOf(pdus) != []
    ensures Receive(rx, FieldsOf(pdus), StartsInside(FiOf(pdus[0])), EndsInside(FiOf(pdus[|pdus| - 1]))) ==
            ReceiveAll(rx, pdus)
    decreases |pdus|
  {
    hide Receive, Parse, ReceiveAll, FieldsOf, WellFormed;
    var n := |pdus| - 1;
    var init, p := pdus[..n], pdus[n];
    assert WellFormed(p) && pdus == init + [p];
    FieldsNext(init, p);
    var fields := FieldsOfOne(p);
    FieldsOfWhole(p);
    ReceiveAllAppend(rx, init, p);
    if n == 0 {
      assert init == [];
      NoPdus(rx);
      assert FieldsOf(init) + fields == fields;
    } else {
      assert init[n - 1] == pdus[n - 1] && init[0] == pdus[0];
      assert Gluable(init);
      ReceiveMerged(rx, init);
      ReceiveJoined(rx, FieldsOf(init), fields, StartsInside(FiOf(pdus[0])), EndsInside(FiOf(p)));
    }
  }

  lemma NoPdus(rx: Rx)
    ensures FieldsOf([]) == [] && ReceiveAll(rx, []) == rx
  {
  }

  lemma FieldsOfWhole(p: seq<byte>)
    requires WellFormed(p)
    ensures Readable(p) && FieldsOfOne(p) == Parse(p).value.fields && FieldsOfOne(p) != []
  {
    ParsedSize(p);
  }
}
