/**
 Runs of the downlink: SDUs arrive at bearers, and every now and then a block is gathered,
 merged into one PDU, printed into a transport block and read by the UE (no block is lost). The
 UE must get every SDU whole, in its bearer's order and never mixed with another bearer's.
 */
module DlStream {
  import opened Bytes
  import opened RlcUmd
  import opened RlcHeader
  import opened RlcMeaning
  import RlcMerge
  import opened DlGather
  import opened RlcReassembly
  import MacPdu
  import opened TransportBlock

  /** `log`: SDUs handed over completely, with their bearer; `accepted`: every SDU that ever arrived. */
  datatype State = State(bearers: Bearers, fiInd: nat, sn: nat, rx: Rx,
                         accepted: map<nat, seq<seq<byte>>>, log: seq<(nat, seq<byte>)>)

  datatype Event =
    | Arrive(lcid: nat, sdu: seq<byte>)
    /** A round in subframe t for a block of up to `tbs` octets, sent in one of `grant` octets. */
    | Send(t: nat, tbs: nat, ta: nat, answers: seq<Answer>, grant: nat)

  const LCIDS: set<nat> := set l: nat | 1 <= l <= 13

  const INITIAL := State(map l | l in LCIDS :: Bearer([], 0), 0, 0, Rx([], []), map l | l in LCIDS :: [], [])

  /** Signalling bearers carry nothing: their SDUs are not merged. */
  ghost predicate NoSignalling(accepted: map<nat, seq<seq<byte>>>) {
    forall l :: l in accepted && l < RlcMerge.DTCH ==> accepted[l] == []
  }

  lemma StillNoSignalling(accepted: map<nat, seq<seq<byte>>>, l: nat, sdus: seq<seq<byte>>)
    requires NoSignalling(accepted) && l >= RlcMerge.DTCH
    ensures NoSignalling(accepted[l := sdus])
  {
  }

  ghost predicate Shaped(s: State) {
    && s.accepted.Keys == s.bearers.Keys && 0 !in s.bearers
    && ValidBearers(s.bearers) && s.sn < 1024
    && NoSignalling(s.accepted)
  }

  /** What the first bearer is offered. */
  function Offer(e: Event): (r: int)
    requires e.Send?
  {
    e.tbs - TaLen(e.ta) - 3
  }

  ghost predicate CanPoll(s: State, e: Event)
    requires Shaped(s) && e.Send?
  {
    |e.answers| == 13 && HonestPolls(s.bearers, Offer(e), FullOrder(e.t, s.fiInd), e.answers)
  }

  ghost function Round(s: State, e: Event): (r: Polled)
    requires Shaped(s) && e.Send? && CanPoll(s, e)
  {
    Poll(s.bearers, Offer(e), FullOrder(e.t, s.fiInd), e.answers)
  }

  /** FI, E/LI fields and SN of the block as the merge writes them. */
  function BlockOf(pdus: seq<seq<byte>>, fiInd: nat, sn: nat): (r: seq<byte>)
    requires pdus != [] && AllWellFormed(pdus) && WellFormed(pdus[|pdus| - 1])
    requires 0 < |FieldsOf(pdus)| <= MAX_FIELDS && sn < 1024
  {
    MergedPdu(FieldsOf(pdus), RlcMerge.MergedFi(FiOf(pdus[|pdus| - 1]), fiInd), sn)
  }

  // ----- from the gathered PDUs to what the UE hears

  /** Octets of the merged PDU. */
  function MergedSize(pdus: seq<seq<byte>>): (r: int)
    requires AllWellFormed(pdus)
  {
    HeaderLen(if FieldsOf(pdus) == [] then 0 else |FieldsOf(pdus)| - 1) + |Concat(FieldsOf(pdus))|
  }

  /** Octets needed as they are counted before the merge. */
  function Need(pdus: seq<seq<byte>>, ta: nat): (r: nat) {
    TaLen(ta) + OpenSize(Lengths(pdus)) + Sum(Lengths(pdus))
  }

  /** Octets left over by the count that chooses the padding. */
  function Spare(pdus: seq<seq<byte>>, ta: nat, grant: nat): (r: int)
    requires AllWellFormed(pdus)
  {
    grant - OpenSize(Lengths(pdus)) - MergedSize(pdus) - TaLen(ta)
  }

  /** No octet is left between the merged PDU and the end of a block without final padding. */
  predicate Exact(pdus: seq<seq<byte>>, ta: nat, grant: nat)
    requires AllWellFormed(pdus)
  {
    |pdus| <= 1 || Spare(pdus, ta, grant) > 2
  }

  /** PDUs that can be merged: each readable, with no more fields than the header buffer holds. */
  predicate CanMerge(pdus: seq<seq<byte>>) {
    && (forall i :: 0 <= i < |pdus| ==> WellFormed(pdus[i]))
    && AllWellFormed(pdus)
    && (pdus != [] ==> WellFormed(pdus[|pdus| - 1]) && 0 < |FieldsOf(pdus)| <= MAX_FIELDS)
  }

  /** The rebuilt header can hold the lengths of their fields. */
  predicate Legible(pdus: seq<seq<byte>>)
    requires AllWellFormed(pdus)
  {
    pdus == [] || Representable(Lengths(FieldsOf(pdus)))
  }

  lemma AirFits(pdus: seq<seq<byte>>, fiInd: nat, sn: nat, ta: nat, grant: nat)
    requires pdus != [] && CanMerge(pdus) && sn < 1024 && Need(pdus, ta) <= grant < 32768
    ensures var m := BlockOf(pdus, fiInd, sn); var hdr := OpenSize(Lengths(pdus));
      && |m| == MergedSize(pdus) && 1 <= hdr && hdr + |m| + TaLen(ta) <= grant
      && (hdr == 1 <==> |pdus| == 1)
  {
    hide FieldsOf, AllWellFormed, MergedPdu, WellFormed, Concat, FiOf, RlcMerge.MergedFi, Sum;
    var fi := RlcMerge.MergedFi(FiOf(pdus[|pdus| - 1]), fiInd);
    MergeNeverGrows(pdus, fi, sn);
    MergedLayout(FieldsOf(pdus), fi, sn);
    SumSubAtLeast(Lengths(pdus)[..|pdus| - 1]);
  }

  /** The transport block on air. */
  function Air(pdus: seq<seq<byte>>, fiInd: nat, sn: nat, ta: nat, grant: nat): (r: seq<byte>)
    requires pdus != [] && CanMerge(pdus) && sn < 1024 && Need(pdus, ta) <= grant < 32768
  {
    AirFits(pdus, fiInd, sn, ta, grant);
    OnAir(grant, OpenSize(Lengths(pdus)), ta, BlockOf(pdus, fiInd, sn))
  }

  /** The UE takes the block apart and hands an SDU on logical channel 3 to that channel's RLC receiver. */
  function Hear(rx: Rx, air: seq<byte>): (r: Rx) {
    match MacPdu.ReadPdu(air)
    case None => rx
    case Some(r) =>
      if |r.sdus| == 1 && MacPdu.Channels(r) == [3] && WellFormed(r.sdus[0]) then ReceivePdu(rx, r.sdus[0]) else rx
  }

  /** The fields with n zero octets behind the last one. */
  function Trailing(fields: seq<seq<byte>>, n: nat): (r: seq<seq<byte>>)
    requires fields != []
    ensures |r| == |fields|
  {
    fields[..|fields| - 1] + [fields[|fields| - 1] + Zeros(n)]
  }

  /** The SDU that the UE takes out of the block. */
  function Heard(pdus: seq<seq<byte>>, fiInd: nat, sn: nat, ta: nat, grant: nat): (r: seq<byte>)
    requires pdus != [] && CanMerge(pdus) && sn < 1024
  {
    BlockOf(pdus, fiInd, sn) + Zeros(if Exact(pdus, ta, grant) then 0 else OpenSize(Lengths(pdus)) - 1)
  }

  /** What the UE takes out of any block, readable or not. */
  lemma HearAny(rx: Rx, pdus: seq<seq<byte>>, fiInd: nat, sn: nat, ta: nat, grant: nat)
    requires pdus != [] && CanMerge(pdus) && sn < 1024 && Need(pdus, ta) <= grant < 32768
    ensures !Exact(pdus, ta, grant) ==> OpenSize(Lengths(pdus)) > 1
    ensures var p := Heard(pdus, fiInd, sn, ta, grant);
      Hear(rx, Air(pdus, fiInd, sn, ta, grant)) == if WellFormed(p) then ReceivePdu(rx, p) else rx
  {
    hide FieldsOf, AllWellFormed, Parse, FiOf, RlcMerge.MergedFi, MergedSize, Need, BlockOf, MacPdu.ReadPdu,
      MacPdu.Channels, OnAir, ReceivePdu, OpenSize;
    AirFits(pdus, fiInd, sn, ta, grant);
    UeTakes(grant, OpenSize(Lengths(pdus)), ta, BlockOf(pdus, fiInd, sn));
  }

  /**
   What the UE makes of a legible block: all its fields, with zeros behind the last one unless the block
   is exact.
   */
  lemma HearBlock(rx: Rx, pdus: seq<seq<byte>>, fiInd: nat, sn: nat, ta: nat, grant: nat)
    requires pdus != [] && CanMerge(pdus) && Legible(pdus) && sn < 1024 && Need(pdus, ta) <= grant < 32768
    ensures var fields := FieldsOf(pdus); var hdr := OpenSize(Lengths(pdus));
      var fi := RlcMerge.MergedFi(FiOf(pdus[|pdus| - 1]), fiInd);
      && fields != [] && hdr >= 1 && (!Exact(pdus, ta, grant) ==> hdr > 1)
      && Hear(rx, Air(pdus, fiInd, sn, ta, grant)) ==
         Receive(rx, if Exact(pdus, ta, grant) then fields else Trailing(fields, hdr - 1),
                 StartsInside(fi), EndsInside(fi))
  {
    hide FieldsOf, AllWellFormed, Parse, Legible, FiOf, RlcMerge.MergedFi, MergedSize, CanMerge, Need, BlockOf,
      MacPdu.ReadPdu, OnAir, Receive, Hear, OpenSize, StartsInside, EndsInside;
    BlockParses(pdus, fiInd, sn);
    var m, hdr := BlockOf(pdus, fiInd, sn), OpenSize(Lengths(pdus));
    AirFits(pdus, fiInd, sn, ta, grant);
    UeTakes(grant, hdr, ta, m);
    UeReads(grant, hdr, ta, m);
    var u := Parse(m).value;
    var heard := if Exact(pdus, ta, grant) then u else u.(fields := Trailing(u.fields, hdr - 1));
    HearOne(rx, OnAir(grant, hdr, ta, m), heard);
  }

  lemma BlockParses(pdus: seq<seq<byte>>, fiInd: nat, sn: nat)
    requires pdus != [] && CanMerge(pdus) && Legible(pdus) && sn < 1024
    ensures AllWellFormed(pdus) && WellFormed(pdus[|pdus| - 1]) && 0 < |FieldsOf(pdus)| <= MAX_FIELDS
    ensures Parse(BlockOf(pdus, fiInd, sn)) ==
            Some(Umd(RlcMerge.MergedFi(FiOf(pdus[|pdus| - 1]), fiInd), sn, FieldsOf(pdus)))
  {
    hide FieldsOf, AllWellFormed, MergedPdu, Parse, Representable, FiOf, RlcMerge.MergedFi;
    FieldsNonEmpty(pdus);
    RepresentableReadsBack(FieldsOf(pdus), RlcMerge.MergedFi(FiOf(pdus[|pdus| - 1]), fiInd), sn);
  }

  lemma HearOne(rx: Rx, air: seq<byte>, u: Umd)
    requires var r := MacPdu.ReadPdu(air);
      r.Some? && |r.value.sdus| == 1 && MacPdu.Channels(r.value) == [3] && Parse(r.value.sdus[0]) == Some(u)
    ensures u.fields != [] && Hear(rx, air) == Receive(rx, u.fields, StartsInside(u.fi), EndsInside(u.fi))
  {
    hide Parse, MacPdu.ReadPdu, Receive;
  }

  // ----- steps

  /**
   RLC keeps its contract, the block has no more fields than the header buffer holds, and it is granted
   what it needs.
   */
  ghost predicate Permitted(s: State, e: Event) {
    && Shaped(s)
    && match e
       case Arrive(lcid, sdu) => lcid in s.bearers && lcid >= RlcMerge.DTCH && sdu != []
       case Send(_, tbs, ta, _, grant) =>
         CanPoll(s, e) && Mergeable(Round(s, e)) && Need(Round(s, e).pdus, ta) <= grant <= tbs < 32768
  }

  /** An unfinished SDU's bearer supplies the first PDU of the next block. */
  ghost predicate Continues(s: State, e: Event)
    requires Permitted(s, e)
  {
    e.Send? && s.fiInd != 0 && Round(s, e).lcids != [] ==> Round(s, e).lcids[0] == s.fiInd
  }

  /** The UE reads neither more nor other fields than were merged. */
  ghost predicate Undamaged(s: State, e: Event)
    requires Permitted(s, e)
  {
    e.Send? ==> Exact(Round(s, e).pdus, e.ta, e.grant) && Legible(Round(s, e).pdus)
  }

  ghost predicate Enabled(s: State, e: Event) {
    Permitted(s, e) && Continues(s, e) && Undamaged(s, e)
  }

  function Accept(s: State, lcid: nat, sdu: seq<byte>): (r: State)
    requires lcid in s.bearers && lcid in s.accepted
  {
    var b := s.bearers[lcid];
    s.(bearers := s.bearers[lcid := b.(queue := b.queue + [sdu])],
       accepted := s.accepted[lcid := s.accepted[lcid] + [sdu]])
  }

  /** The PDUs of a round can be merged, and there is one LCID for each. */
  predicate Mergeable(r: Polled) {
    |r.lcids| == |r.pdus| && CanMerge(r.pdus)
  }

  /** Merge, print, send and receive what a round of polls has taken. */
  function Transmit(s: State, r: Polled, ta: nat, grant: nat): (s': State)
    requires s.sn < 1024 && Mergeable(r) && Need(r.pdus, ta) <= grant < 32768
  {
    if r.pdus == [] then s.(bearers := r.bearers)
    else
      var last := |r.pdus| - 1;
      var fi := RlcMerge.MergedFi(FiOf(r.pdus[last]), s.fiInd);
      var sn := (s.sn + 1) % 1024;
      State(r.bearers, if EndsInside(fi) then r.lcids[last] else 0, sn,
            Hear(s.rx, Air(r.pdus, s.fiInd, sn, ta, grant)), s.accepted, s.log + r.log)
  }

  ghost function Next(s: State, e: Event): (r: State)
    requires Permitted(s, e)
  {
    match e
    case Arrive(lcid, sdu) => Accept(s, lcid, sdu)
    case Send(_, _, ta, _, grant) => Transmit(s, Round(s, e), ta, grant)
  }

  /** Whole SDUs only, in the order they were handed over; per bearer nothing lost, doubled or reordered. */
  ghost predicate Intact(s: State)
    requires Shaped(s)
  {
    && s.rx.delivered == Payloads(s.log)
    && forall l :: l in s.bearers ==> s.accepted[l] == Project(s.log, l) + s.bearers[l].queue
  }

  /** At most one SDU is open; its bearer is `fiInd` and the receiver holds exactly the part already sent. */
  ghost predicate InStep(s: State)
    requires Shaped(s)
  {
    if s.fiInd == 0 then Fresh(s.bearers) && s.rx.partial == []
    else OpenAt(s.bearers, s.fiInd) && s.rx.partial == Gone(s.bearers[s.fiInd])
  }

  ghost predicate Inv(s: State) {
    Shaped(s) && Intact(s) && InStep(s)
  }

  lemma ArriveKeeps(s: State, e: Event)
    requires Inv(s) && e.Arrive? && Permitted(s, e)
    ensures Inv(Next(s, e))
  {
    hide Project, Payloads, NoSignalling, Left;
    StillNoSignalling(s.accepted, e.lcid, s.accepted[e.lcid] + [e.sdu]);
    var b := s.bearers[e.lcid];
    var b' := b.(queue := b.queue + [e.sdu]);
    assert s.accepted[e.lcid] + [e.sdu] == Project(s.log, e.lcid) + b'.queue;
    assert ValidBearer(b') && Gone(b') == Gone(b);
  }

  /** The block's FI says exactly whether an SDU was open before and whether one is open after. */
  lemma BlockFi(pdus: seq<seq<byte>>, fiInd: nat)
    requires pdus != [] && Gluable(pdus)
    requires StartsInside(FiOf(pdus[0])) <==> fiInd != 0
    ensures var last := FiOf(pdus[|pdus| - 1]); var fi := RlcMerge.MergedFi(last, fiInd);
      (StartsInside(fi) <==> StartsInside(FiOf(pdus[0]))) && (EndsInside(fi) <==> EndsInside(last))
  {
    hide FiOf, WellFormed;
    var last := FiOf(pdus[|pdus| - 1]);
    assert last < 4;
  }

  /** Hearing an exact block is receiving its PDUs one by one. */
  lemma ReceiveBlock(rx: Rx, pdus: seq<seq<byte>>, fiInd: nat, sn: nat, ta: nat, grant: nat)
    requires pdus != [] && Gluable(pdus) && CanMerge(pdus) && sn < 1024 && Need(pdus, ta) <= grant < 32768
    requires StartsInside(FiOf(pdus[0])) <==> fiInd != 0
    requires Exact(pdus, ta, grant) && Legible(pdus)
    ensures Hear(rx, Air(pdus, fiInd, sn, ta, grant)) == ReceiveAll(rx, pdus)
  {
    hide Parse, Receive, ReceiveAll, Air, Hear, FieldsOf, RlcMerge.MergedFi, FiOf, Legible, Exact, Need;
    BlockFi(pdus, fiInd);
    ReceiveMerged(rx, pdus);
    HearBlock(rx, pdus, fiInd, sn, ta, grant);
  }

  /** What a round leaves behind, whether or not an SDU was open. */
  lemma RoundOutcome(s: State, e: Event)
    requires Inv(s) && e.Send? && Permitted(s, e) && Continues(s, e)
    ensures var r := Round(s, e);
      && ValidBearers(r.bearers) && r.bearers.Keys == s.bearers.Keys && |r.lcids| == |r.pdus| && Gluable(r.pdus)
      && (r.pdus != [] ==> (StartsInside(FiOf(r.pdus[0])) <==> s.fiInd != 0))
      && ReceiveAll(s.rx, r.pdus).delivered == s.rx.delivered + Payloads(r.log)
      && (r.pdus == [] ==> r.bearers == s.bearers && r.log == [])
      && (r.pdus != [] ==> Settled(r.bearers, ReceiveAll(s.rx, r.pdus), r.pdus, r.lcids))
  {
    hide Poll, HonestPolls, FullOrder, Settled, Gluable, ReceiveAll, FiOf, NoSignalling, Intact, ValidBearer,
        Mergeable, Payloads;
    PollShape(s.bearers, Offer(e), FullOrder(e.t, s.fiInd), e.answers);
    if s.fiInd == 0 {
      PollFresh(s.bearers, Offer(e), FullOrder(e.t, s.fiInd), e.answers, s.rx);
    } else {
      PollOpen(s.bearers, Offer(e), FullOrder(e.t, s.fiInd), e.answers, s.rx, s.fiInd);
    }
  }

  lemma LogConserves(s: State, e: Event)
    requires Inv(s) && e.Send? && Permitted(s, e)
    ensures var r := Round(s, e);
      forall l :: l in s.bearers ==> l in r.bearers && s.accepted[l] == Project(s.log + r.log, l) + r.bearers[l].queue
  {
    hide Poll, HonestPolls, FullOrder, Project, NoSignalling, InStep, Mergeable, ValidBearer;
    var r := Round(s, e);
    forall l | l in s.bearers
      ensures l in r.bearers && s.accepted[l] == Project(s.log + r.log, l) + r.bearers[l].queue {
      PollConserves(s.bearers, Offer(e), FullOrder(e.t, s.fiInd), e.answers, l);
      ProjectAppend(s.log, r.log, l);
    }
  }

  lemma SendKeeps(s: State, e: Event)
    requires Inv(s) && e.Send? && Enabled(s, e)
    ensures Inv(Next(s, e))
  {
    hide Poll, HonestPolls, FullOrder, Round, CanPoll, Exact, Need, Mergeable, Transmit, Intact, InStep, Gluable,
        Settled;
    RoundOutcome(s, e);
    LogConserves(s, e);
    TransmitKeeps(s, Round(s, e), e.ta, e.grant);
  }

  lemma TransmitKeeps(s: State, r: Polled, ta: nat, grant: nat)
    requires Inv(s) && Mergeable(r) && Need(r.pdus, ta) <= grant < 32768 && Exact(r.pdus, ta, grant) && Legible(r.pdus)
    requires ValidBearers(r.bearers) && r.bearers.Keys == s.bearers.Keys && Gluable(r.pdus)
    requires r.pdus != [] ==> (StartsInside(FiOf(r.pdus[0])) <==> s.fiInd != 0)
    requires ReceiveAll(s.rx, r.pdus).delivered == s.rx.delivered + Payloads(r.log)
    requires r.pdus == [] ==> r.bearers == s.bearers && r.log == []
    requires r.pdus != [] ==> Settled(r.bearers, ReceiveAll(s.rx, r.pdus), r.pdus, r.lcids)
    requires forall l :: l in s.bearers ==>
      l in r.bearers && s.accepted[l] == Project(s.log + r.log, l) + r.bearers[l].queue
    ensures Inv(Transmit(s, r, ta, grant))
  {
    hide Project, Gluable, ReceiveAll, FiOf, Air, Hear, WellFormed, StartsInside, EndsInside, FieldsOf,
      Representable, AllWellFormed, NoSignalling, ValidBearer, Need, Exact;
    if r.pdus != [] {
      var last := |r.pdus| - 1;
      BlockFi(r.pdus, s.fiInd);
      ReceiveBlock(s.rx, r.pdus, s.fiInd, (s.sn + 1) % 1024, ta, grant);
      assert Payloads(s.log + r.log) == Payloads(s.log) + Payloads(r.log);
    }
  }

  // ----- whole runs

  /** Any sequence of arrivals and blocks; nothing is asked of the poll order or of the spare octets. */
  ghost predicate IsRun(s: State, events: seq<Event>)
    decreases |events|
  {
    events == [] || (Permitted(s, events[0]) && IsRun(Next(s, events[0]), events[1..]))
  }

  ghost function Exec(s: State, events: seq<Event>): (r: State)
    requires IsRun(s, events)
    decreases |events|
  {
    if events == [] then s else Exec(Next(s, events[0]), events[1..])
  }

  /** Every block continues the unfinished SDU and is exact. */
  ghost predicate Orderly(s: State, events: seq<Event>)
    requires IsRun(s, events)
    decreases |events|
  {
    events == [] || (Enabled(s, events[0]) && Orderly(Next(s, events[0]), events[1..]))
  }

  lemma {:induction false} RunKeeps(s: State, events: seq<Event>)
    requires Inv(s) && IsRun(s, events) && Orderly(s, events)
    ensures Inv(Exec(s, events))
    decreases |events|
  {
    hide Inv, Next, Permitted, Continues, Undamaged;
    if events != [] {
      assert Enabled(s, events[0]);
      if events[0].Arrive? { ArriveKeeps(s, events[0]); } else { SendKeeps(s, events[0]); }
      RunKeeps(Next(s, events[0]), events[1..]);
    }
  }

  lemma InitialInv()
    ensures Inv(INITIAL)
  {
  }

  /**
   After every orderly run the UE has delivered exactly the SDUs handed over so far, each one
   whole; bearer by bearer they are the accepted ones in order, up to those still queued.
   */
  lemma EveryRunIntact(events: seq<Event>)
    requires IsRun(INITIAL, events) && Orderly(INITIAL, events)
    ensures Shaped(Exec(INITIAL, events)) && Intact(Exec(INITIAL, events))
  {
    InitialInv();
    RunKeeps(INITIAL, events);
  }

  // ----- when the bearer of an unfinished SDU does come first

  /** Offers too small for a header and one octet are refused by every bearer. */
  lemma {:induction false} TooSmall(bs: Bearers, room: int, order: seq<nat>, answers: seq<Answer>)
    requires ValidBearers(bs) && |answers| == |order| && HonestPolls(bs, room, order, answers) && room < 3
    ensures Poll(bs, room, order, answers).lcids == []
    decreases |order|
  {
    hide Parse;
    if order != [] && room > 0 {
      if answers[0].Pdu? {
        ParsedSize(answers[0].octets);
      } else {
        PollSkip(bs, room, order, answers);
        TooSmall(bs, room, order[1..], answers[1..]);
      }
    }
  }

  /** If only empty bearers are polled before c, c is the first to deliver. */
  lemma {:induction false} FirstTaken(bs: Bearers, room: int, order: seq<nat>, answers: seq<Answer>, k: nat, c: nat)
    requires ValidBearers(bs) && |answers| == |order| && HonestPolls(bs, room, order, answers)
    requires k < |order| && order[k] == c && c in bs && bs[c].queue != []
    requires forall j :: 0 <= j < k ==> order[j] in bs ==> bs[order[j]].queue == []
    ensures var r := Poll(bs, room, order, answers); r.lcids != [] ==> r.lcids[0] == c
    decreases |order|
  {
    hide Parse;
    if room > 0 {
      if answers[0].NoBytes? {
        PollSkip(bs, room, order, answers);
        if k == 0 {
          TooSmall(bs, room, order[1..], answers[1..]);
        } else {
          FirstTaken(bs, room, order[1..], answers[1..], k - 1, c);
        }
      } else {
        PollUnfold(bs, room, order, answers);
        assert k == 0;
      }
    }
  }

  /** Only the dedicated bearers, LCIDs 4 to 6, hold data. */
  ghost predicate OnlyDedicated(s: State) {
    forall l :: l in s.bearers && !(4 <= l <= 6) ==> s.bearers[l].queue == []
  }

  lemma DedicatedContinues(s: State, e: Event)
    requires Inv(s) && OnlyDedicated(s) && e.Send? && Permitted(s, e)
    ensures Continues(s, e)
  {
    hide Poll, HonestPolls, Gated, Mergeable;
    if s.fiInd != 0 {
      var order := FullOrder(e.t, s.fiInd);
      assert 4 <= s.fiInd <= 6;
      assert order[8] == s.fiInd;
      assert forall j :: 0 <= j < 8 ==> !(4 <= order[j] <= 6);
      FirstTaken(s.bearers, Offer(e), order, e.answers, 8, s.fiInd);
    }
  }

  lemma DedicatedStays(s: State, e: Event)
    requires Inv(s) && OnlyDedicated(s) && Enabled(s, e)
    requires e.Arrive? ==> 4 <= e.lcid <= 6
    ensures OnlyDedicated(Next(s, e))
  {
    hide Poll, HonestPolls, FullOrder, Project, Hear, Air, FieldsOf, Representable, Need, Exact, Mergeable;
    if e.Send? {
      var r := Round(s, e);
      PollShape(s.bearers, Offer(e), FullOrder(e.t, s.fiInd), e.answers);
      forall l | l in r.bearers && !(4 <= l <= 6) ensures r.bearers[l].queue == [] {
        PollConserves(s.bearers, Offer(e), FullOrder(e.t, s.fiInd), e.answers, l);
      }
    }
  }

  /** SDUs for LCIDs 4 to 6 only, and exact blocks. */
  ghost predicate Dedicated(s: State, events: seq<Event>)
    requires IsRun(s, events)
    decreases |events|
  {
    events == [] ||
    ( && Undamaged(s, events[0])
      && (events[0].Arrive? ==> 4 <= events[0].lcid <= 6)
      && Dedicated(Next(s, events[0]), events[1..]))
  }

  lemma {:induction false} DedicatedIsOrderly(s: State, events: seq<Event>)
    requires Inv(s) && OnlyDedicated(s) && IsRun(s, events) && Dedicated(s, events)
    ensures Orderly(s, events)
    decreases |events|
  {
    hide Next, Permitted, OnlyDedicated, Undamaged, Inv;
    if events != [] {
      var e := events[0];
      assert Permitted(s, e);
      if e.Arrive? {
        ArriveKeeps(s, e);
      } else {
        DedicatedContinues(s, e);
        SendKeeps(s, e);
      }
      DedicatedStays(s, e);
      DedicatedIsOrderly(Next(s, e), events[1..]);
    }
  }

  /** With data on the dedicated bearers only and exact blocks, no SDU is ever mixed up, lost or reordered. */
  lemma DedicatedRunIntact(events: seq<Event>)
    requires IsRun(INITIAL, events) && Dedicated(INITIAL, events)
    ensures Orderly(INITIAL, events)
    ensures Shaped(Exec(INITIAL, events)) && Intact(Exec(INITIAL, events))
  {
    InitialInv();
    DedicatedIsOrderly(INITIAL, events);
    EveryRunIntact(events);
  }
}
