/**
 Exactly when a block keeps the stream in step: the bearer of the unfinished SDU must be the first
 one polled that holds data, the rebuilt header must be able to hold the lengths, and several PDUs must
 leave more than two octets spare. And exactly when a run delivers what was handed over: once a block
 has failed, no SDU may be completed any more.
 */
module DlExact {
  import opened Bytes
  import opened RlcUmd
  import opened RlcHeader
  import opened RlcMeaning
  import RlcMerge
  import opened DlGather
  import opened RlcReassembly
  import MacPdu
  import opened TransportBlock
  import opened DlStream

  /** The first bearer in the order that holds data. */
  function FirstBusy(bs: Bearers, order: seq<nat>): (r: Option<nat>) {
    if order == [] then None
    else if order[0] in bs && bs[order[0]].queue != [] then Some(order[0])
    else FirstBusy(bs, order[1..])
  }

  /** Whoever is polled first with data supplies the first PDU, once a header and an octet can be offered. */
  lemma {:induction false} PollFirst(bs: Bearers, room: int, order: seq<nat>, answers: seq<Answer>)
    requires ValidBearers(bs) && |answers| == |order| && HonestPolls(bs, room, order, answers)
    ensures var r := Poll(bs, room, order, answers); var first := FirstBusy(bs, order);
      && (r.lcids != [] <==> room >= 3 && first.Some?)
      && (r.lcids != [] ==> first == Some(r.lcids[0]))
    decreases |order|
  {
    hide Poll, HonestPolls, Honest, Parse, Completed, Served;
    if order == [] || room <= 0 {
      PollNone(bs, room, order, answers);
    } else if room < 3 {
      TooSmall(bs, room, order, answers);
    } else if answers[0].NoBytes? {
      PollSkip(bs, room, order, answers);
      PollFirst(bs, room, order[1..], answers[1..]);
    } else {
      PollUnfold(bs, room, order, answers);
    }
  }

  lemma {:induction false} BusyFound(bs: Bearers, order: seq<nat>, k: nat)
    requires k < |order| && order[k] in bs && bs[order[k]].queue != []
    ensures FirstBusy(bs, order).Some?
    decreases k
  {
    if k > 0 { BusyFound(bs, order[1..], k - 1); }
  }

  /**
   Known before the block: nothing unfinished, no room for a PDU, or the unfinished SDU's bearer is
   first in line.
   */
  ghost predicate UnfinishedFirst(s: State, e: Event)
    requires e.Send?
  {
    || s.fiInd == 0
    || Offer(e) < 3
    || FirstBusy(s.bearers, FullOrder(e.t, s.fiInd)) == Some(s.fiInd)
  }

  lemma ContinuesExactly(s: State, e: Event)
    requires Inv(s) && Permitted(s, e) && e.Send?
    ensures Continues(s, e) <==> UnfinishedFirst(s, e)
  {
    hide Poll, HonestPolls, Mergeable, Gated, FirstBusy;
    if s.fiInd != 0 {
      var order := FullOrder(e.t, s.fiInd);
      PollFirst(s.bearers, Offer(e), order, e.answers);
      assert order[8] == s.fiInd || order[12] == s.fiInd;
      BusyFound(s.bearers, order, if order[8] == s.fiInd then 8 else 12);
    }
  }

  // ----- what goes wrong otherwise

  /**
   What the first PDU p of a round says about its bearer d, and that nothing follows it if it ends
   inside an SDU.
   */
  ghost predicate Heads(bs: Bearers, d: nat, p: seq<byte>, r: Polled)
    requires ValidBearers(bs)
  {
    && d in bs && WellFormed(p)
    && var f := Parse(p).value.fields;
    && Carries(bs[d], f)
    && (EndsInside(FiOf(p)) <==> CutShort(bs[d], f))
    && Completed(bs[d], f) <= Payloads(r.log)
    && (CutShort(bs[d], f) ==>
          && r.pdus == [p] && r.lcids == [d]
          && r.bearers == bs[d := After(bs[d], f)] && Payloads(r.log) == Completed(bs[d], f))
  }

  lemma {:induction false} PollHead(bs: Bearers, room: int, order: seq<nat>, answers: seq<Answer>)
    requires ValidBearers(bs) && |answers| == |order| && HonestPolls(bs, room, order, answers)
    requires Poll(bs, room, order, answers).lcids != []
    ensures var r := Poll(bs, room, order, answers);
      |r.pdus| == |r.lcids| && Heads(bs, r.lcids[0], r.pdus[0], r)
    decreases |order|
  {
    hide Poll, HonestPolls, Parse, Completed, Served, Heads, RoomAfter, CutShort;
    PollShape(bs, room, order, answers);
    if order == [] || room <= 0 {
      PollNone(bs, room, order, answers);
    } else if answers[0].NoBytes? {
      PollSkip(bs, room, order, answers);
      PollHead(bs, room, order[1..], answers[1..]);
    } else {
      HeadIs(bs, room, order, answers);
    }
  }

  lemma HeadIs(bs: Bearers, room: int, order: seq<nat>, answers: seq<Answer>)
    requires ValidBearers(bs) && |answers| == |order| && HonestPolls(bs, room, order, answers)
    requires order != [] && room > 0 && answers[0].Pdu?
    ensures var r := Poll(bs, room, order, answers);
      r.lcids != [] && r.pdus != [] && Heads(bs, r.lcids[0], r.pdus[0], r)
  {
    hide Poll, HonestPolls, Parse, Completed, RoomAfter, CutShort, Carries;
    PollUnfold(bs, room, order, answers);
    var l, a := order[0], answers[0];
    if CutShort(bs[l], Parse(a.octets).value.fields) {
      CutShortEnds(bs[l], room, a);
      PollNone(bs[l := Served(bs[l], a)], RoomAfter(room, a), order[1..], answers[1..]);
    }
  }

  lemma {:induction false} FieldsStart(pdus: seq<seq<byte>>)
    requires pdus != [] && AllWellFormed(pdus) && WellFormed(pdus[0])
    requires forall i :: 0 <= i < |pdus| ==> WellFormed(pdus[i])
    ensures Parse(pdus[0]).value.fields <= FieldsOf(pdus)
    ensures |FieldsOf(pdus)| >= |pdus| - 1 + |Parse(pdus[0]).value.fields|
    decreases |pdus|
  {
    hide Parse, FieldsOf;
    var n := |pdus| - 1;
    var init, p := pdus[..n], pdus[n];
    assert pdus == init + [p];
    FieldsNext(init, p);
    FieldsOfWhole(p);
    if n == 0 {
      NoFieldsYet();
      assert [] + FieldsOfOne(p) == FieldsOfOne(p);
    } else {
      assert init[0] == pdus[0];
      FieldsStart(init);
    }
  }

  lemma {:induction false} ReceiveGrows(rx: Rx, fields: seq<seq<byte>>, startsInside: bool, endsInside: bool)
    requires fields != []
    ensures rx.delivered <= Receive(rx, fields, startsInside, endsInside).delivered
    decreases |fields|
  {
    if |fields| > 1 {
      var sdu := (if startsInside then rx.partial else []) + fields[0];
      ReceiveGrows(Rx([], rx.delivered + [sdu]), fields[1..], false, endsInside);
    }
  }

  /** The first SDU that comes out of a PDU. */
  lemma ReceiveHead(rx: Rx, fields: seq<seq<byte>>, startsInside: bool, endsInside: bool)
    requires fields != [] && (|fields| > 1 || !endsInside)
    ensures var d := Receive(rx, fields, startsInside, endsInside).delivered;
      |d| > |rx.delivered| && d[|rx.delivered|] == (if startsInside then rx.partial else []) + fields[0]
  {
    if |fields| > 1 {
      var sdu := (if startsInside then rx.partial else []) + fields[0];
      ReceiveGrows(Rx([], rx.delivered + [sdu]), fields[1..], false, endsInside);
    }
  }

  /** An SDU completed by a PDU is as long as its part already sent and the first field together. */
  lemma CompletedFirst(b: Bearer, f: seq<seq<byte>>)
    requires ValidBearer(b) && Carries(b, f) && Completed(b, f) != []
    ensures |Completed(b, f)[0]| == |Gone(b)| + |f[0]| && (|f| > 1 || !CutShort(b, f))
  {
    assert f[0] == Left(b, 0);
  }

  lemma NothingCompleted(b: Bearer, f: seq<seq<byte>>)
    requires ValidBearer(b) && Carries(b, f) && Completed(b, f) == []
    ensures CutShort(b, f) && |f| == 1 && f[0] != [] && |Gone(After(b, f))| == |Gone(b)| + |f[0]|
  {
  }

  /** The UE has delivered exactly what was handed over. */
  ghost predicate Delivered(s: State) {
    s.rx.delivered == Payloads(s.log)
  }

  /** Some SDU has come out different. */
  ghost predicate Apart(s: State) {
    exists i :: 0 <= i < |s.rx.delivered| && i < |s.log| && s.rx.delivered[i] != s.log[i].1
  }

  /**
   No wrong SDU has come out yet, but the UE will put more octets in front of the next one than any
   bearer has sent of it.
   */
  ghost predicate Lost(s: State) {
    && Shaped(s) && Delivered(s) && s.fiInd != 0
    && forall l :: l in s.bearers ==> |Gone(s.bearers[l])| < |s.rx.partial|
  }

  lemma BrokenIsNotInv(s: State)
    requires Lost(s) || Apart(s) || !Delivered(s)
    ensures !Inv(s) && (Apart(s) ==> !Delivered(s))
  {
    hide Gone;
  }

  /** The open octets are too many for the bearer that comes first. */
  ghost predicate TooMany(s: State, d: nat)
    requires Shaped(s)
  {
    && s.fiInd != 0 && d in s.bearers && |Gone(s.bearers[d])| < |s.rx.partial|
    && forall l :: l in s.bearers ==> |Gone(s.bearers[l])| <= |s.rx.partial|
  }

  lemma FiBits(fi: nat, fiInd: nat)
    requires fi < 4
    ensures var m := RlcMerge.MergedFi(fi, fiInd);
      (fiInd != 0 ==> StartsInside(m)) && (EndsInside(m) <==> EndsInside(fi))
  {
  }

  /** What the UE takes for the first SDU of a block that begins inside one. */
  lemma HearFirst(s: State, r: Polled, ta: nat, grant: nat)
    requires s.sn < 1024 && Mergeable(r) && r.pdus != [] && Need(r.pdus, ta) <= grant < 32768 && s.fiInd != 0
    requires WellFormed(r.pdus[0]) && Legible(r.pdus)
    requires var f := Parse(r.pdus[0]).value.fields; |f| > 1 || !EndsInside(FiOf(r.pdus[0]))
    ensures var f := Parse(r.pdus[0]).value.fields; var d := Transmit(s, r, ta, grant).rx.delivered;
      f != [] && |d| > |s.rx.delivered| && d[|s.rx.delivered|] == s.rx.partial + f[0]
  {
    hide Parse, FieldsOf, Receive, Legible, RlcMerge.MergedFi, FiOf, StartsInside, EndsInside, AllWellFormed,
      Hear, Air, Need, OpenSize, Spare;
    var sn, last := (s.sn + 1) % 1024, FiOf(r.pdus[|r.pdus| - 1]);
    var fields, fi := FieldsOf(r.pdus), RlcMerge.MergedFi(last, s.fiInd);
    FiBits(last, s.fiInd);
    FieldsStart(r.pdus);
    HearBlock(s.rx, r.pdus, s.fiInd, sn, ta, grant);
    var heard := if Exact(r.pdus, ta, grant) then fields else Trailing(fields, OpenSize(Lengths(r.pdus)) - 1);
    assert |fields| == 1 ==> |r.pdus| == 1 && last == FiOf(r.pdus[0]);
    ReceiveHead(s.rx, heard, true, EndsInside(fi));
  }

  /** An SDU that is completed with too many octets in front of it comes out wrong. */
  lemma ComesOutWrong(s: State, r: Polled, ta: nat, grant: nat)
    requires Shaped(s) && Delivered(s) && Mergeable(r) && r.pdus != [] && Need(r.pdus, ta) <= grant < 32768
    requires Legible(r.pdus)
    requires TooMany(s, r.lcids[0]) && Heads(s.bearers, r.lcids[0], r.pdus[0], r)
    requires Completed(s.bearers[r.lcids[0]], Parse(r.pdus[0]).value.fields) != []
    ensures Apart(Transmit(s, r, ta, grant)) && r.log != []
  {
    hide Parse, Completed, CutShort, Carries, Mergeable, Need, Gone, Hear, Air, EndsInside, FiOf;
    OnePerPdu(r);
    var b, f := s.bearers[r.lcids[0]], Parse(r.pdus[0]).value.fields;
    CompletedFirst(b, f);
    HearFirst(s, r, ta, grant);
    TransmitLog(s, r, ta, grant);
    var t, n := Transmit(s, r, ta, grant), |s.log|;
    assert Payloads(r.log)[0] == Completed(b, f)[0];
    assert t.log[n].1 == Completed(b, f)[0];
    assert t.rx.delivered[n] == s.rx.partial + f[0];
  }

  lemma TransmitLog(s: State, r: Polled, ta: nat, grant: nat)
    requires s.sn < 1024 && Mergeable(r) && r.pdus != [] && Need(r.pdus, ta) <= grant < 32768
    ensures Transmit(s, r, ta, grant).log == s.log + r.log
  {
    hide Hear, Air, Mergeable, Need;
  }

  lemma OnePerPdu(r: Polled)
    requires Mergeable(r)
    ensures |r.lcids| == |r.pdus|
  {
  }

  /** If no SDU is completed, the surplus stays. */
  lemma StaysLost(s: State, r: Polled, ta: nat, grant: nat)
    requires Shaped(s) && Delivered(s) && Mergeable(r) && r.pdus != [] && Need(r.pdus, ta) <= grant < 32768
    requires Legible(r.pdus)
    requires TooMany(s, r.lcids[0]) && Heads(s.bearers, r.lcids[0], r.pdus[0], r)
    requires Completed(s.bearers[r.lcids[0]], Parse(r.pdus[0]).value.fields) == []
    ensures Lost(Transmit(s, r, ta, grant)) && r.log == []
  {
    hide Parse, Completed, CutShort, Carries, Need, Gone, Hear, Air, EndsInside, StartsInside, FiOf, FieldsOf,
      Legible, Receive, RlcMerge.MergedFi, NoSignalling, After, AllWellFormed, ValidBearer, OpenSize;
    var d, p := r.lcids[0], r.pdus[0];
    var b, f := s.bearers[d], Parse(p).value.fields;
    NothingCompleted(b, f);
    FiBits(FiOf(p), s.fiInd);
    OneFieldOf(p);
    HearBlock(s.rx, r.pdus, s.fiInd, (s.sn + 1) % 1024, ta, grant);
    CutReceived(s.rx, f);
    assert r.bearers == s.bearers[d := After(b, f)];
  }

  lemma OneFieldOf(p: seq<byte>)
    requires WellFormed(p)
    ensures AllWellFormed([p]) && FieldsOf([p]) == Parse(p).value.fields
  {
    hide Parse, FieldsOf, FieldsOfOne, Readable;
    FieldsOfWhole(p);
    var none: seq<seq<byte>> := [];
    assert none + [p] == [p];
    FieldsNext(none, p);
    NoFieldsYet();
    assert none + FieldsOfOne(p) == FieldsOfOne(p);
  }

  lemma CutReceived(rx: Rx, f: seq<seq<byte>>)
    requires |f| == 1
    ensures Receive(rx, f, true, true) == Rx(rx.partial + f[0], rx.delivered)
  {
  }

  /** The first PDU of a round decides. */
  lemma SurplusStep(s: State, r: Polled, ta: nat, grant: nat)
    requires Shaped(s) && Delivered(s) && Mergeable(r) && r.pdus != [] && Need(r.pdus, ta) <= grant < 32768
    requires Legible(r.pdus)
    requires TooMany(s, r.lcids[0]) && Heads(s.bearers, r.lcids[0], r.pdus[0], r)
    ensures if r.log == [] then Lost(Transmit(s, r, ta, grant)) else Apart(Transmit(s, r, ta, grant))
  {
    hide Lost, Apart, Transmit, Mergeable, Need, TooMany, Completed, Parse, Carries;
    OnePerPdu(r);
    if Completed(s.bearers[r.lcids[0]], Parse(r.pdus[0]).value.fields) == [] {
      StaysLost(s, r, ta, grant);
    } else {
      ComesOutWrong(s, r, ta, grant);
    }
  }

  // ----- the failing block

  /** Another bearer goes ahead of the unfinished SDU. */
  lemma WrongFirst(s: State, e: Event)
    requires Inv(s) && e.Send? && Permitted(s, e) && !Continues(s, e) && Legible(Round(s, e).pdus)
    ensures if Round(s, e).log == [] then Lost(Next(s, e)) else Apart(Next(s, e))
  {
    hide Poll, HonestPolls, Mergeable, FullOrder, Heads, Transmit, Need, Lost, Apart, TooMany, Gone, Payloads, Project,
      Legible;
    var r := Round(s, e);
    PollHead(s.bearers, Offer(e), FullOrder(e.t, s.fiInd), e.answers);
    OnePerPdu(r);
    OthersSentNothing(s, r.lcids[0], r.pdus[0], r);
    SurplusStep(s, r, e.ta, e.grant);
  }

  lemma OthersSentNothing(s: State, d: nat, p: seq<byte>, r: Polled)
    requires Inv(s) && s.fiInd != 0 && d != s.fiInd && Heads(s.bearers, d, p, r)
    ensures TooMany(s, d) && Delivered(s)
  {
    hide Parse, Carries, CutShort, Completed, Payloads, Project;
  }

  lemma {:induction false} ReceiveTrailing(rx: Rx, fields: seq<seq<byte>>, n: nat, startsInside: bool, endsInside: bool)
    requires fields != []
    ensures var g := Receive(rx, fields, startsInside, endsInside);
      var h := Receive(rx, Trailing(fields, n), startsInside, endsInside); var k := |g.delivered| - 1;
      if endsInside then h == Rx(g.partial + Zeros(n), g.delivered)
      else k >= 0 && |h.delivered| == k + 1 && |h.delivered[k]| == |g.delivered[k]| + n
    decreases |fields|
  {
    var sdu := (if startsInside then rx.partial else []) + fields[0];
    if |fields| == 1 {
      assert Trailing(fields, n) == [fields[0] + Zeros(n)];
      assert sdu + Zeros(n) == (if startsInside then rx.partial else []) + (fields[0] + Zeros(n));
    } else {
      assert Trailing(fields, n)[1..] == Trailing(fields[1..], n);
      ReceiveTrailing(Rx([], rx.delivered + [sdu]), fields[1..], n, false, endsInside);
    }
  }

  /** Zeros behind the last field: the last SDU comes out wrong, or too many octets wait for its rest. */
  lemma ZerosBehind(s: State, r: Polled, ta: nat, grant: nat)
    requires Inv(s) && Mergeable(r) && r.pdus != [] && Need(r.pdus, ta) <= grant < 32768
    requires Legible(r.pdus) && !Exact(r.pdus, ta, grant)
    requires ValidBearers(r.bearers) && r.bearers.Keys == s.bearers.Keys && Gluable(r.pdus)
    requires StartsInside(FiOf(r.pdus[0])) <==> s.fiInd != 0
    requires ReceiveAll(s.rx, r.pdus).delivered == s.rx.delivered + Payloads(r.log)
    requires Settled(r.bearers, ReceiveAll(s.rx, r.pdus), r.pdus, r.lcids)
    ensures var t := Transmit(s, r, ta, grant);
      if EndsInside(FiOf(r.pdus[|r.pdus| - 1])) then Lost(t) else Apart(t)
  {
    hide Project, Gluable, ReceiveAll, FiOf, Air, Hear, StartsInside, EndsInside, FieldsOf, WellFormed,
      Legible, AllWellFormed, NoSignalling, ValidBearer, Need, Exact, RlcMerge.MergedFi, Gone;
    var last := FiOf(r.pdus[|r.pdus| - 1]);
    FiBits(last, s.fiInd);
    TrailingHeard(s.rx, r.pdus, s.fiInd, (s.sn + 1) % 1024, ta, grant);
    var t, good := Transmit(s, r, ta, grant), ReceiveAll(s.rx, r.pdus);
    assert Payloads(t.log) == Payloads(s.log) + Payloads(r.log) == good.delivered;
    if EndsInside(last) {
      OnlyOneOpen(r.bearers, r.lcids[|r.lcids| - 1]);
    } else {
      var k := |good.delivered| - 1;
      assert t.rx.delivered[k] != Payloads(t.log)[k];
    }
  }

  /** The difference that the zeros make to the UE. */
  lemma TrailingHeard(rx: Rx, pdus: seq<seq<byte>>, fiInd: nat, sn: nat, ta: nat, grant: nat)
    requires pdus != [] && Gluable(pdus) && CanMerge(pdus) && sn < 1024 && Need(pdus, ta) <= grant < 32768
    requires StartsInside(FiOf(pdus[0])) <==> fiInd != 0
    requires Legible(pdus) && !Exact(pdus, ta, grant)
    ensures var g := ReceiveAll(rx, pdus); var h := Hear(rx, Air(pdus, fiInd, sn, ta, grant));
        var k := |g.delivered| - 1;
      if EndsInside(FiOf(pdus[|pdus| - 1])) then h.delivered == g.delivered && |h.partial| > |g.partial|
      else k >= 0 && |h.delivered| == k + 1 && |h.delivered[k]| > |g.delivered[k]|
  {
    hide Parse, Receive, ReceiveAll, Air, Hear, FieldsOf, RlcMerge.MergedFi, FiOf, Legible, Exact, Need,
        OpenSize, Trailing;
    var fi := RlcMerge.MergedFi(FiOf(pdus[|pdus| - 1]), fiInd);
    BlockFi(pdus, fiInd);
    ReceiveMerged(rx, pdus);
    HearBlock(rx, pdus, fiInd, sn, ta, grant);
    ReceiveTrailing(rx, FieldsOf(pdus), OpenSize(Lengths(pdus)) - 1, StartsInside(fi), EndsInside(fi));
  }

  lemma OnlyOneOpen(bs: Bearers, c: nat)
    requires ValidBearers(bs) && OpenAt(bs, c)
    ensures forall l :: l in bs ==> |Gone(bs[l])| <= |Gone(bs[c])|
  {
  }

  lemma TooLittleSpare(s: State, e: Event)
    requires Inv(s) && e.Send? && Permitted(s, e) && Continues(s, e) && !Undamaged(s, e) && Legible(Round(s, e).pdus)
    ensures var r := Round(s, e);
      && r.pdus != [] && WellFormed(r.pdus[|r.pdus| - 1])
      && if EndsInside(FiOf(r.pdus[|r.pdus| - 1])) then Lost(Next(s, e)) else Apart(Next(s, e))
  {
    hide Poll, HonestPolls, FullOrder, Spare, Need, Transmit, Gluable, Settled, Lost, Apart, ReceiveAll, FiOf,
      AllWellFormed, Inv, Continues, Payloads, Shaped, Round, CanPoll, StartsInside, EndsInside, Legible;
    RoundOutcome(s, e);
    ZerosBehind(s, Round(s, e), e.ta, e.grant);
  }

  // ----- a header that cannot hold the lengths

  /** The SDUs that fields make up, the first one with what was there before. */
  function Joined(before: seq<byte>, fields: seq<seq<byte>>): (r: seq<seq<byte>>)
    requires fields != []
    ensures |r| == |fields|
  {
    [before + fields[0]] + fields[1..]
  }

  /** What comes out of a PDU: all of them, but for the last one if it is unfinished. */
  function Finished(before: seq<byte>, fields: seq<seq<byte>>, endsInside: bool): (r: seq<seq<byte>>)
    requires fields != []
  {
    if endsInside then Joined(before, fields)[..|fields| - 1] else Joined(before, fields)
  }

  lemma FinishedFirst(before: seq<byte>, fields: seq<seq<byte>>, endsInside: bool)
    requires fields != []
    ensures Finished(before, fields, endsInside) ==
      if |fields| > 1 then [before + fields[0]] + Finished([], fields[1..], endsInside)
      else if endsInside then [] else [before + fields[0]]
  {
    if |fields| > 1 {
      var rest := fields[1..];
      assert [] + rest[0] == rest[0];
      assert Joined([], rest) == rest;
    }
  }

  lemma {:induction false} ReceiveDelivers(rx: Rx, fields: seq<seq<byte>>, startsInside: bool, endsInside: bool)
    requires fields != []
    ensures Receive(rx, fields, startsInside, endsInside).delivered ==
            rx.delivered + Finished(if startsInside then rx.partial else [], fields, endsInside)
    decreases |fields|
  {
    hide Finished;
    var before := if startsInside then rx.partial else [];
    var sdu := before + fields[0];
    FinishedFirst(before, fields, endsInside);
    if |fields| > 1 {
      var more := Finished([], fields[1..], endsInside);
      ReceiveDelivers(Rx([], rx.delivered + [sdu]), fields[1..], false, endsInside);
      assert rx.delivered + [sdu] + more == rx.delivered + ([sdu] + more);
    } else {
      assert rx.delivered + [] == rx.delivered;
    }
  }

  /** Equal deliveries from two PDUs mean equal fields, up to the last one. */
  lemma SameDeliveries(rx: Rx, f: seq<seq<byte>>, g: seq<seq<byte>>, startsInside: bool, endsInside: bool)
    requires f != [] && g != []
    requires Receive(rx, f, startsInside, endsInside).delivered == Receive(rx, g, startsInside, endsInside).delivered
    ensures |f| == |g| && forall i :: 0 <= i < |f| - 1 ==> f[i] == g[i]
  {
    hide Receive, Finished;
    var before := if startsInside then rx.partial else [];
    ReceiveDelivers(rx, f, startsInside, endsInside);
    ReceiveDelivers(rx, g, startsInside, endsInside);
    SameBehind(rx.delivered, Finished(before, f, endsInside), Finished(before, g, endsInside));
    SameFields(before, f, g, endsInside);
  }

  lemma SameBehind(d: seq<seq<byte>>, x: seq<seq<byte>>, y: seq<seq<byte>>)
    requires d + x == d + y
    ensures x == y
  {
    assert x == (d + x)[|d|..] && y == (d + y)[|d|..];
  }

  lemma SameFields(before: seq<byte>, f: seq<seq<byte>>, g: seq<seq<byte>>, endsInside: bool)
    requires f != [] && g != [] && Finished(before, f, endsInside) == Finished(before, g, endsInside)
    ensures |f| == |g| && forall i :: 0 <= i < |f| - 1 ==> f[i] == g[i]
  {
    var a, b := Finished(before, f, endsInside), Finished(before, g, endsInside);
    assert |f| == |g|;
    forall i | 0 <= i < |f| - 1 ensures f[i] == g[i] {
      assert a[i] == Joined(before, f)[i] && b[i] == Joined(before, g)[i];
      if i == 0 { SamePrefix(before, f[0], g[0]); }
    }
  }

  lemma SamePrefix(p: seq<byte>, x: seq<byte>, y: seq<byte>)
    requires p + x == p + y
    ensures x == y
  {
    assert x == (p + x)[|p|..] && y == (p + y)[|p|..];
  }

  /** FI and SN are read right even if the fields are not. */
  lemma HeardFi(pdus: seq<seq<byte>>, fiInd: nat, sn: nat, ta: nat, grant: nat)
    requires pdus != [] && CanMerge(pdus) && sn < 1024 && WellFormed(Heard(pdus, fiInd, sn, ta, grant))
    ensures FiOf(Heard(pdus, fiInd, sn, ta, grant)) == RlcMerge.MergedFi(FiOf(pdus[|pdus| - 1]), fiInd)
  {
    hide FieldsOf, AllWellFormed, MergedPdu, Exact, OpenSize, RlcMerge.MergedFi, Concat;
    var fi := RlcMerge.MergedFi(FiOf(pdus[|pdus| - 1]), fiInd);
    MergedLayout(FieldsOf(pdus), fi, sn);
    var m, p := MergedPdu(FieldsOf(pdus), fi, sn), Heard(pdus, fiInd, sn, ta, grant);
    assert p[0] == m[0];
    ParsedFi(p);
  }

  lemma ParsedFi(p: seq<byte>)
    requires WellFormed(p)
    ensures |p| >= 1 && FiOf(p) == Fi(p)
  {
  }

  /** An illegible block never makes the UE deliver what its PDUs would. */
  lemma GarbledHeard(rx: Rx, pdus: seq<seq<byte>>, fiInd: nat, sn: nat, ta: nat, grant: nat)
    requires pdus != [] && CanMerge(pdus) && sn < 1024 && Need(pdus, ta) <= grant < 32768 && !Legible(pdus)
    ensures var fi := RlcMerge.MergedFi(FiOf(pdus[|pdus| - 1]), fiInd);
      Hear(rx, Air(pdus, fiInd, sn, ta, grant)).delivered !=
      Receive(rx, FieldsOf(pdus), StartsInside(fi), EndsInside(fi)).delivered
  {
    hide FieldsOf, AllWellFormed, Parse, FiOf, RlcMerge.MergedFi, MergedSize, Need, Air, Hear, Receive, OpenSize,
      StartsInside, EndsInside, Representable, Exact, MergedPdu;
    var fields, fi := FieldsOf(pdus), RlcMerge.MergedFi(FiOf(pdus[|pdus| - 1]), fiInd);
    var p := Heard(pdus, fiInd, sn, ta, grant);
    HearAny(rx, pdus, fiInd, sn, ta, grant);
    AtLeastTwo(fields);
    ReceiveHead(rx, fields, StartsInside(fi), EndsInside(fi));
    if WellFormed(p) && ReceivePdu(rx, p).delivered == Receive(rx, fields, StartsInside(fi), EndsInside(fi)).delivered {
      var u := Parse(p).value;
      HeardFi(pdus, fiInd, sn, ta, grant);
      ParsedFiIs(p);
      SameDeliveries(rx, u.fields, fields, StartsInside(fi), EndsInside(fi));
      LengthsOnlyIfRepresentable(fields, fi, sn, p[|MergedPdu(fields, fi, sn)|..]);
    }
  }

  lemma ParsedFiIs(p: seq<byte>)
    requires WellFormed(p)
    ensures FiOf(p) == Parse(p).value.fi && Parse(p).value.fields != []
  {
  }

  lemma AtLeastTwo(fields: seq<seq<byte>>)
    requires 0 < |fields| <= MAX_FIELDS && !Representable(Lengths(fields))
    ensures |fields| > 1
  {
  }

  lemma IllegibleRound(s: State, r: Polled, ta: nat, grant: nat)
    requires Inv(s) && Mergeable(r) && r.pdus != [] && Need(r.pdus, ta) <= grant < 32768
    requires Gluable(r.pdus) && !Legible(r.pdus)
    requires StartsInside(FiOf(r.pdus[0])) <==> s.fiInd != 0
    requires ReceiveAll(s.rx, r.pdus).delivered == s.rx.delivered + Payloads(r.log)
    ensures !Delivered(Transmit(s, r, ta, grant))
  {
    hide Project, Gluable, ReceiveAll, Receive, FiOf, Air, Hear, StartsInside, EndsInside, FieldsOf, WellFormed,
      Legible, AllWellFormed, NoSignalling, ValidBearer, Need, RlcMerge.MergedFi, Gone;
    BlockFi(r.pdus, s.fiInd);
    ReceiveMerged(s.rx, r.pdus);
    GarbledHeard(s.rx, r.pdus, s.fiInd, (s.sn + 1) % 1024, ta, grant);
    var t := Transmit(s, r, ta, grant);
    assert Payloads(t.log) == Payloads(s.log) + Payloads(r.log);
  }

  /** If the lengths cannot be held, an SDU comes out wrong or not at all in that very block. */
  lemma IllegibleStep(s: State, e: Event)
    requires Inv(s) && e.Send? && Permitted(s, e) && Continues(s, e) && !Legible(Round(s, e).pdus)
    ensures !Delivered(Next(s, e))
  {
    hide Poll, HonestPolls, FullOrder, Need, Transmit, Gluable, Settled, ReceiveAll, FiOf, AllWellFormed, Inv,
        Continues,
      Payloads, Shaped, Round, CanPoll, StartsInside, FieldsOf, Representable, Delivered;
    RoundOutcome(s, e);
    IllegibleRound(s, Round(s, e), e.ta, e.grant);
  }

  // ----- every step

  /** What keeps the stream in step, known before the block is sent. */
  ghost predicate Kept(s: State, e: Event)
    requires Permitted(s, e)
  {
    e.Arrive? || (UnfinishedFirst(s, e) && Undamaged(s, e))
  }

  /**
   Not both at once: another bearer goes ahead of the unfinished SDU, and the header cannot hold the lengths.
   The two can cancel each other.
   */
  ghost predicate SingleFault(s: State, e: Event)
    requires Permitted(s, e)
  {
    e.Arrive? || UnfinishedFirst(s, e) || Legible(Round(s, e).pdus)
  }

  /** The failing block does not complete the SDU it spoils: its first one, or the one at its end. */
  ghost predicate StillHidden(s: State, e: Event)
    requires Permitted(s, e) && e.Send?
  {
    var r := Round(s, e);
    var last := |r.pdus| - 1;
    if !Legible(r.pdus) then false
    else if UnfinishedFirst(s, e) then last >= 0 && WellFormed(r.pdus[last]) && EndsInside(FiOf(r.pdus[last]))
    else r.log == []
  }

  lemma FailingStep(s: State, e: Event)
    requires Inv(s) && Permitted(s, e) && !Kept(s, e) && SingleFault(s, e)
    ensures e.Send? && if StillHidden(s, e) then Lost(Next(s, e)) else !Delivered(Next(s, e))
  {
    hide Inv, Next, Lost, Apart, Continues, UnfinishedFirst, Undamaged, Round, FiOf, AllWellFormed, CanPoll, Need,
      Legible, Delivered;
    ContinuesExactly(s, e);
    if !Legible(Round(s, e).pdus) {
      IllegibleStep(s, e);
    } else if UnfinishedFirst(s, e) {
      TooLittleSpare(s, e);
      if Apart(Next(s, e)) { BrokenIsNotInv(Next(s, e)); }
    } else {
      WrongFirst(s, e);
      if Apart(Next(s, e)) { BrokenIsNotInv(Next(s, e)); }
    }
  }

  /**
   Whatever is sent, the stream stays intact and in step if and only if the unfinished SDU's bearer is
   first in line, the header can hold the lengths, and one PDU is sent or more than two octets are spare.
   */
  lemma StepExact(s: State, e: Event)
    requires Inv(s) && Permitted(s, e) && SingleFault(s, e)
    ensures Inv(Next(s, e)) <==> Kept(s, e)
  {
    hide Inv, Next, Permitted, Continues, UnfinishedFirst, Undamaged, Lost, Apart, StillHidden, Delivered, SingleFault;
    if Kept(s, e) {
      KeptStays(s, e);
    } else {
      FailingStep(s, e);
      BrokenIsNotInv(Next(s, e));
    }
  }

  lemma KeptStays(s: State, e: Event)
    requires Inv(s) && Permitted(s, e) && Kept(s, e)
    ensures Inv(Next(s, e))
  {
    hide Inv, Next, Permitted, Continues, UnfinishedFirst, Undamaged;
    if e.Arrive? {
      ArriveKeeps(s, e);
    } else {
      ContinuesExactly(s, e);
      SendKeeps(s, e);
    }
  }

  // ----- after a failure

  /** The header can hold the lengths of the block. */
  ghost predicate Clear(s: State, e: Event)
    requires Permitted(s, e)
  {
    e.Send? ==> Legible(Round(s, e).pdus)
  }

  /** A wrong SDU stays wrong. */
  lemma ApartStays(s: State, e: Event)
    requires Apart(s) && Permitted(s, e)
    ensures Apart(Next(s, e))
  {
    hide Poll, HonestPolls, FullOrder, Air, Hear, Need, CanMerge;
    var t := Next(s, e);
    if e.Send? && Round(s, e).pdus != [] {
      HearGrows(s.rx, Air(Round(s, e).pdus, s.fiInd, (s.sn + 1) % 1024, e.ta, e.grant));
    }
    assert s.rx.delivered <= t.rx.delivered && s.log <= t.log;
    var i :| 0 <= i < |s.rx.delivered| && i < |s.log| && s.rx.delivered[i] != s.log[i].1;
    assert t.rx.delivered[i] != t.log[i].1;
  }

  lemma HearGrows(rx: Rx, air: seq<byte>)
    ensures rx.delivered <= Hear(rx, air).delivered
  {
    hide Parse, MacPdu.ReadPdu, Receive;
    match MacPdu.ReadPdu(air)
    case None =>
    case Some(r) =>
      if |r.sdus| == 1 && WellFormed(r.sdus[0]) {
        var u := Parse(r.sdus[0]).value;
        ReceiveGrows(rx, u.fields, StartsInside(u.fi), EndsInside(u.fi));
      }
  }

  lemma {:induction false} PollSilent(bs: Bearers, room: int, order: seq<nat>, answers: seq<Answer>)
    requires ValidBearers(bs) && |answers| == |order| && HonestPolls(bs, room, order, answers)
    requires Poll(bs, room, order, answers).pdus == []
    ensures Poll(bs, room, order, answers).bearers == bs && Poll(bs, room, order, answers).log == []
    decreases |order|
  {
    hide Poll, HonestPolls, Honest, Parse, Completed, Served, RoomAfter, CutShort;
    if order == [] || room <= 0 {
      PollNone(bs, room, order, answers);
    } else if answers[0].NoBytes? {
      PollSkip(bs, room, order, answers);
      PollSilent(bs, room, order[1..], answers[1..]);
    } else {
      PollUnfold(bs, room, order, answers);
    }
  }

  lemma ArriveStaysLost(s: State, e: Event)
    requires Lost(s) && e.Arrive? && Permitted(s, e)
    ensures Lost(Next(s, e)) && Next(s, e).log == s.log
  {
    hide Payloads, NoSignalling, Left;
    StillNoSignalling(s.accepted, e.lcid, s.accepted[e.lcid] + [e.sdu]);
    var b := s.bearers[e.lcid];
    var b' := b.(queue := b.queue + [e.sdu]);
    assert ValidBearer(b') && Gone(b') == Gone(b);
  }

  /** The surplus stays until an SDU is completed, and that SDU comes out wrong. */
  lemma LostStep(s: State, e: Event)
    requires Lost(s) && Permitted(s, e) && Clear(s, e)
    ensures if Next(s, e).log == s.log then Lost(Next(s, e)) else Apart(Next(s, e))
  {
    hide Poll, HonestPolls, Mergeable, FullOrder, Heads, Need, Apart, Gone, Payloads, Air, Hear, Legible;
    if e.Arrive? {
      ArriveStaysLost(s, e);
    } else {
      var r, order := Round(s, e), FullOrder(e.t, s.fiInd);
      if r.pdus == [] {
        PollSilent(s.bearers, Offer(e), order, e.answers);
        assert Next(s, e) == s;
      } else {
        OnePerPdu(r);
        PollHead(s.bearers, Offer(e), order, e.answers);
        HeadIsKnown(s.bearers, r.lcids[0], r.pdus[0], r);
        SurplusStep(s, r, e.ta, e.grant);
        TransmitLog(s, r, e.ta, e.grant);
        assert s.log + r.log == s.log <==> r.log == [];
      }
    }
  }

  lemma HeadIsKnown(bs: Bearers, d: nat, p: seq<byte>, r: Polled)
    requires ValidBearers(bs) && Heads(bs, d, p, r)
    ensures d in bs
  {
    hide Parse, Carries, CutShort, Completed;
  }

  lemma {:induction false} FieldsCons(p: seq<byte>, rest: seq<seq<byte>>)
    requires WellFormed(p) && AllWellFormed(rest) && AllWellFormed([p] + rest)
    ensures FieldsOf([p] + rest) == Parse(p).value.fields + FieldsOf(rest)
    decreases |rest|
  {
    hide Parse, FieldsOf, WellFormed;
    NoFieldsYet();
    if rest == [] {
      assert [p] + rest == [p];
      OneFieldOf(p);
    } else {
      var n := |rest| - 1;
      var init, q := rest[..n], rest[n];
      assert init + [q] == rest && [p] + init + [q] == [p] + rest;
      assert AllWellFormed(init) && AllWellFormed([p] + init) by { Shorter(p, rest); }
      FieldsNext(init, q);
      FieldsNext([p] + init, q);
      FieldsCons(p, init);
    }
  }

  lemma Shorter(p: seq<byte>, rest: seq<seq<byte>>)
    requires rest != [] && AllWellFormed(rest) && AllWellFormed([p] + rest)
    ensures AllWellFormed(rest[..|rest| - 1]) && AllWellFormed([p] + rest[..|rest| - 1])
  {
    hide Readable;
    assert [p] + rest[..|rest| - 1] == ([p] + rest)[..|rest|];
  }

  /** How many SDUs PDUs with these fields complete: one for each, but for the last one if it is unfinished. */
  ghost function Whole(pdus: seq<seq<byte>>): (r: int)
    requires AllWellFormed(pdus) && forall i :: 0 <= i < |pdus| ==> WellFormed(pdus[i])
  {
    |FieldsOf(pdus)| - (if pdus != [] && EndsInside(FiOf(pdus[|pdus| - 1])) then 1 else 0)
  }

  lemma CompletedCount(b: Bearer, f: seq<seq<byte>>)
    requires ValidBearer(b) && Carries(b, f)
    ensures |Completed(b, f)| == |f| - (if CutShort(b, f) then 1 else 0)
  {
  }

  lemma AllReadable(pdus: seq<seq<byte>>)
    requires forall i :: 0 <= i < |pdus| ==> WellFormed(pdus[i])
    ensures AllWellFormed(pdus)
  {
  }

  lemma {:induction false} PollCounts(bs: Bearers, room: int, order: seq<nat>, answers: seq<Answer>)
    requires ValidBearers(bs) && |answers| == |order| && HonestPolls(bs, room, order, answers)
    ensures var r := Poll(bs, room, order, answers);
      && (forall i :: 0 <= i < |r.pdus| ==> WellFormed(r.pdus[i])) && AllWellFormed(r.pdus)
      && |r.log| == Whole(r.pdus)
    decreases |order|
  {
    hide Poll, HonestPolls, Parse, Completed, Served, RoomAfter, CutShort, Whole, Carries, AllWellFormed;
    PollShape(bs, room, order, answers);
    AllReadable(Poll(bs, room, order, answers).pdus);
    if order == [] || room <= 0 {
      PollNone(bs, room, order, answers);
      WholeOfNone();
    } else if answers[0].NoBytes? {
      PollSkip(bs, room, order, answers);
      PollCounts(bs, room, order[1..], answers[1..]);
    } else {
      PollUnfold(bs, room, order, answers);
      var l, a := order[0], answers[0];
      var bs', room' := bs[l := Served(bs[l], a)], RoomAfter(room, a);
      var tail := Poll(bs', room', order[1..], answers[1..]);
      PollCounts(bs', room', order[1..], answers[1..]);
      CompletedCount(bs[l], Parse(a.octets).value.fields);
      if CutShort(bs[l], Parse(a.octets).value.fields) {
        CutShortEnds(bs[l], room, a);
        PollNone(bs', room', order[1..], answers[1..]);
      }
      WholeCons(a.octets, tail.pdus, CutShort(bs[l], Parse(a.octets).value.fields));
    }
  }

  lemma WholeOfNone()
    ensures AllWellFormed([]) && Whole([]) == 0
  {
  }

  lemma WholeCons(p: seq<byte>, rest: seq<seq<byte>>, cut: bool)
    requires WellFormed(p) && AllWellFormed(rest) && (forall i :: 0 <= i < |rest| ==> WellFormed(rest[i]))
    requires AllWellFormed([p] + rest) && (EndsInside(FiOf(p)) <==> cut) && (cut ==> rest == [])
    ensures forall i :: 0 <= i < |rest| + 1 ==> WellFormed(([p] + rest)[i])
    ensures Whole([p] + rest) == |Parse(p).value.fields| - (if cut then 1 else 0) + Whole(rest)
  {
    hide FieldsOf, Parse, FiOf;
    FieldsCons(p, rest);
    NoFieldsYet();
  }

  lemma ReceiveCounts(rx: Rx, fields: seq<seq<byte>>, startsInside: bool, endsInside: bool)
    requires fields != []
    ensures |Receive(rx, fields, startsInside, endsInside).delivered| ==
            |rx.delivered| + |fields| - (if endsInside then 1 else 0)
  {
    hide Receive;
    ReceiveDelivers(rx, fields, startsInside, endsInside);
  }

  lemma HeardCount(rx: Rx, pdus: seq<seq<byte>>, fiInd: nat, sn: nat, ta: nat, grant: nat)
    requires pdus != [] && CanMerge(pdus) && Legible(pdus) && sn < 1024 && Need(pdus, ta) <= grant < 32768
    ensures |Hear(rx, Air(pdus, fiInd, sn, ta, grant)).delivered| == |rx.delivered| + Whole(pdus)
  {
    hide Air, Hear, Need, FieldsOf, FiOf, RlcMerge.MergedFi, Receive, Legible, EndsInside, StartsInside, OpenSize,
        Exact,
      AllWellFormed, WellFormed;
    var last, fields := FiOf(pdus[|pdus| - 1]), FieldsOf(pdus);
    var fi := RlcMerge.MergedFi(last, fiInd);
    FiBits(last, fiInd);
    HearBlock(rx, pdus, fiInd, sn, ta, grant);
    var heard := if Exact(pdus, ta, grant) then fields else Trailing(fields, OpenSize(Lengths(pdus)) - 1);
    ReceiveCounts(rx, heard, StartsInside(fi), EndsInside(fi));
  }

  /** A block with a legible header completes as many SDUs at the UE as at the bearers, right or wrong. */
  lemma SameCount(s: State, e: Event)
    requires Permitted(s, e) && Clear(s, e)
    ensures |Next(s, e).rx.delivered| - |s.rx.delivered| == |Next(s, e).log| - |s.log|
  {
    hide Poll, HonestPolls, FullOrder, Air, Hear, Need, FiOf, RlcMerge.MergedFi, Legible, EndsInside, AllWellFormed,
        Whole,
      NoSignalling, ValidBearer, WellFormed;
    if e.Send? {
      PollCounts(s.bearers, Offer(e), FullOrder(e.t, s.fiInd), e.answers);
      var r := Round(s, e);
      if r.pdus == [] {
        WholeOfNone();
      } else {
        HeardCount(s.rx, r.pdus, s.fiInd, (s.sn + 1) % 1024, e.ta, e.grant);
      }
    }
  }

  /** What is not delivered stays undelivered. */
  lemma UndeliveredStays(s: State, e: Event)
    requires !Delivered(s) && Permitted(s, e) && Clear(s, e)
    ensures !Delivered(Next(s, e))
  {
    hide Next, Permitted, Clear, Inv;
    if |s.rx.delivered| != |s.log| {
      SameCount(s, e);
    } else {
      assert Apart(s) by { SomeDiffers(s); }
      ApartStays(s, e);
      BrokenIsNotInv(Next(s, e));
    }
  }

  lemma SomeDiffers(s: State)
    requires !Delivered(s) && |s.rx.delivered| == |s.log|
    ensures Apart(s)
  {
    var i :| 0 <= i < |s.log| && s.rx.delivered[i] != Payloads(s.log)[i];
  }

  // ----- whole runs

  ghost predicate AlwaysInStep(s: State, events: seq<Event>)
    requires IsRun(s, events)
    decreases |events|
  {
    Inv(s) && (events == [] || AlwaysInStep(Next(s, events[0]), events[1..]))
  }

  ghost predicate AlwaysKept(s: State, events: seq<Event>)
    requires IsRun(s, events)
    decreases |events|
  {
    events == [] || (Kept(s, events[0]) && AlwaysKept(Next(s, events[0]), events[1..]))
  }

  ghost predicate AlwaysClear(s: State, events: seq<Event>)
    requires IsRun(s, events)
    decreases |events|
  {
    events == [] || (Clear(s, events[0]) && AlwaysClear(Next(s, events[0]), events[1..]))
  }

  /**
   The first failing block, if any, does not fail in both ways; `after`: the headers of all later ones are
   legible.
   */
  ghost predicate FirstFault(s: State, events: seq<Event>, after: bool)
    requires IsRun(s, events)
    decreases |events|
  {
    events == [] ||
    var e, t := events[0], Next(s, events[0]);
    if Kept(s, e) then FirstFault(t, events[1..], after)
    else SingleFault(s, e) && (after ==> AlwaysClear(t, events[1..]))
  }

  /** A run is intact and in step throughout if and only if every block meets the condition. */
  lemma {:induction false} RunExact(s: State, events: seq<Event>)
    requires Inv(s) && IsRun(s, events) && FirstFault(s, events, false)
    ensures AlwaysInStep(s, events) <==> AlwaysKept(s, events)
    decreases |events|
  {
    hide Inv, Next, Permitted, Kept, SingleFault;
    if events != [] {
      var e, t := events[0], Next(s, events[0]);
      if Kept(s, e) {
        KeptStays(s, e);
        RunExact(t, events[1..]);
      } else {
        StepExact(s, e);
        BrokenNow(t, events[1..]);
      }
    }
  }

  /** Without asking anything of the faults: blocks that meet the condition keep the run in step. */
  lemma {:induction false} KeptRuns(s: State, events: seq<Event>)
    requires Inv(s) && IsRun(s, events) && AlwaysKept(s, events)
    ensures AlwaysInStep(s, events)
    decreases |events|
  {
    hide Inv, Next, Permitted, Kept;
    if events != [] {
      KeptStays(s, events[0]);
      KeptRuns(Next(s, events[0]), events[1..]);
    }
  }

  lemma BrokenNow(s: State, events: seq<Event>)
    requires !Inv(s) && IsRun(s, events)
    ensures !AlwaysInStep(s, events)
  {
  }

  /**
   Every block meets the condition, or the first that does not spoils an SDU which is never completed,
   nor any other one.
   */
  ghost predicate NothingSpoiled(s: State, events: seq<Event>)
    requires IsRun(s, events)
    decreases |events|
  {
    events == [] ||
    var e, t := events[0], Next(s, events[0]);
    if Kept(s, e) then NothingSpoiled(t, events[1..])
    else e.Send? && StillHidden(s, e) && Exec(t, events[1..]).log == t.log
  }

  lemma {:induction false} UndeliveredForever(s: State, events: seq<Event>)
    requires !Delivered(s) && IsRun(s, events) && AlwaysClear(s, events)
    ensures !Delivered(Exec(s, events))
    decreases |events|
  {
    hide Next, Permitted, Clear, Delivered;
    if events != [] {
      UndeliveredStays(s, events[0]);
      UndeliveredForever(Next(s, events[0]), events[1..]);
    }
  }

  lemma LogStep(s: State, e: Event)
    requires Permitted(s, e)
    ensures |s.log| <= |Next(s, e).log|
    ensures |Next(s, e).log| == |s.log| ==> Next(s, e).log == s.log
  {
    hide Poll, HonestPolls, FullOrder, Air, Hear, Need, Mergeable, Shaped;
  }

  lemma {:induction false} LogGrows(s: State, events: seq<Event>)
    requires IsRun(s, events)
    ensures |s.log| <= |Exec(s, events).log|
    decreases |events|
  {
    hide Next, Permitted;
    if events != [] {
      LogStep(s, events[0]);
      LogGrows(Next(s, events[0]), events[1..]);
    }
  }

  lemma {:induction false} LostRun(s: State, events: seq<Event>)
    requires Lost(s) && IsRun(s, events) && AlwaysClear(s, events)
    ensures Delivered(Exec(s, events)) <==> Exec(s, events).log == s.log
    decreases |events|
  {
    hide Lost, Apart, Next, Permitted, Delivered, Clear;
    if events == [] {
      assert Delivered(s) by { LostIsDelivered(s); }
    } else {
      var t := Next(s, events[0]);
      LostStep(s, events[0]);
      if t.log == s.log {
        LostRun(t, events[1..]);
      } else {
        BrokenIsNotInv(t);
        UndeliveredForever(t, events[1..]);
        LogStep(s, events[0]);
        LogGrows(t, events[1..]);
      }
    }
  }

  lemma LostIsDelivered(s: State)
    requires Lost(s)
    ensures Delivered(s)
  {
  }

  lemma InvIsDelivered(s: State)
    requires Inv(s)
    ensures Delivered(s)
  {
  }

  /**
   At the end of any run the UE has delivered exactly the SDUs handed over if and only if every block
   met the condition, or no SDU was completed from the first failing one on.
   */
  lemma {:induction false} DeliveryExact(s: State, events: seq<Event>)
    requires Inv(s) && IsRun(s, events) && FirstFault(s, events, true)
    ensures Delivered(Exec(s, events)) <==> NothingSpoiled(s, events)
    decreases |events|
  {
    hide Inv, Next, Permitted, Kept, Lost, Apart, Delivered, StillHidden, SingleFault, Clear;
    if events == [] {
      InvIsDelivered(s);
    } else {
      var e, t := events[0], Next(s, events[0]);
      if Kept(s, e) {
        KeptStays(s, e);
        DeliveryExact(t, events[1..]);
      } else {
        FailingStep(s, e);
        if StillHidden(s, e) {
          LostRun(t, events[1..]);
        } else {
          UndeliveredForever(t, events[1..]);
        }
      }
    }
  }
}
