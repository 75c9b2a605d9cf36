/**
 How a downlink block is gathered (eNB_scheduler_dlsch.c): signalling bearers first, then the
 data bearers in an order gated by the subframe, each offered what is left of the transport
 block. RLC's answers are inputs.
 */
module DlGather {
  import opened Bytes

  /** `bytes_in_buffer == 0`, or the PDU that the data request returned (possibly empty). */
  datatype Answer = NoBytes | Pdu(octets: seq<byte>)

  /** The block so far; `headerLast` is the size of the last subheader counted. */
  datatype Block = Block(pdus: seq<seq<byte>>, lcids: seq<nat>, headerTotal: nat, headerLast: nat) {
    function SduTotal(): (r: nat) { |Concat(pdus)| }
  }

  const EMPTY_BLOCK := Block([], [], 0, 0)

  /** Subheader with a length field: two octets, three from 128 on. */
  function SubheaderLen(len: nat): (r: nat) {
    if len >= 128 then 3 else 2
  }

  /** The octets offered to the next bearer; nothing is offered unless positive. */
  function Room(tbs: nat, taLen: nat, b: Block): (r: int) {
    tbs - taLen - b.headerTotal - b.SduTotal() - 3
  }

  function Add(b: Block, lcid: nat, pdu: seq<byte>): (r: Block)
    ensures r.SduTotal() == b.SduTotal() + |pdu|
  {
    assert (b.pdus + [pdu])[..|b.pdus|] == b.pdus;
    Block(b.pdus + [pdu], b.lcids + [lcid], b.headerTotal + SubheaderLen(|pdu|), SubheaderLen(|pdu|))
  }

  function Take(b: Block, lcid: nat, a: Answer): (r: Block) {
    match a
    case NoBytes => b
    case Pdu(octets) => Add(b, lcid, octets)
  }

  /** Data bearers at a subframe: the three slots 7-9 belong to one bearer by the gate control list. */
  function Gated(t: nat): (r: nat) {
    var s := t % 20;
    if s == 0 || s == 5 || s == 10 || s == 15 then 4
    else if s == 1 || s == 11 then 5
    else if s == 2 then 6
    else 3
  }

  /**
   The bearer of an unfinished SDU takes slot 6, ahead of the gated ones, unless it is the default
   bearer.
   */
  function PollOrder(t: nat, fiInd: nat): (r: seq<nat>)
    ensures |r| == 11
  {
    var g := Gated(t);
    [13, 12, 11, 10, 9, 8, if fiInd != 0 && fiInd != 3 then fiInd else 7, g, g, g, 3]
  }

  /** The gated bearers of 20 subframes from t on. */
  function Window(t: nat): (r: seq<nat>)
    ensures |r| == 20
  {
    seq<nat>(20, (i: nat) => Gated(t + i))
  }

  /** Four subframes for bearer 4, two for 5, one for 6 and the rest for the default bearer. */
  predicate Shared(w: multiset<nat>) {
    w[4] == 4 && w[5] == 2 && w[6] == 1 && w[3] == 13
  }

  lemma FirstWindow()
    ensures Window(0) == [4, 5, 6, 3, 3, 4, 3, 3, 3, 3] + [4, 5, 3, 3, 3, 4, 3, 3, 3, 3]
  {
    assert Window(0)[..10] == [Gated(0), Gated(1), Gated(2), Gated(3), Gated(4),
                               Gated(5), Gated(6), Gated(7), Gated(8), Gated(9)];
    assert Window(0)[10..] == [Gated(10), Gated(11), Gated(12), Gated(13), Gated(14),
                               Gated(15), Gated(16), Gated(17), Gated(18), Gated(19)];
    assert Window(0) == Window(0)[..10] + Window(0)[10..];
  }

  lemma FirstShares()
    ensures Shared(multiset(Window(0)))
  {
    hide Window;
    FirstWindow();
    var a, b: seq<nat> := [4, 5, 6, 3, 3, 4, 3, 3, 3, 3], [4, 5, 3, 3, 3, 4, 3, 3, 3, 3];
    assert multiset(a + b) == multiset(a) + multiset(b);
  }

  /** Any 20 subframes in a row are shared in this way. */
  lemma GateShares(t: nat)
    ensures Shared(multiset(Window(t)))
  {
    hide Gated, Shared, Window;
    FirstShares();
    var k := t % 20;
    Rotated(t, k);
    var x, y := Window(0)[..k], Window(0)[k..];
    assert Window(0) == x + y;
    assert multiset(Window(t)) == multiset(y) + multiset(x) == multiset(Window(0));
  }

  lemma Rotated(t: nat, k: nat)
    requires k == t % 20
    ensures Window(t) == Window(0)[k..] + Window(0)[..k]
  {
    hide Gated;
    forall i | 0 <= i < 20 ensures Window(t)[i] == (Window(0)[k..] + Window(0)[..k])[i] {
      Periodic(t + i, if k + i < 20 then k + i else k + i - 20);
    }
  }

  lemma Periodic(t: nat, u: nat)
    requires t % 20 == u % 20
    ensures Gated(t) == Gated(u)
  {
  }

  /** The gates are the same whether or not the frame number has wrapped. */
  lemma GatesWrap(t: nat)
    ensures Gated(t % 10240) == Gated(t)
  {
    assert t % 10240 % 20 == t % 20;
  }

  /** Polling the bearers of `order` one after the other until nothing can be offered. */
  function Gather(tbs: nat, taLen: nat, b: Block, order: seq<nat>, answers: seq<Answer>): (r: Block)
    requires |answers| == |order|
    decreases |order|
  {
    if order == [] || Room(tbs, taLen, b) <= 0 then b
    else Gather(tbs, taLen, Take(b, order[0], answers[0]), order[1..], answers[1..])
  }

  /** RLC never returns more than it was offered. */
  predicate WithinOffers(tbs: nat, taLen: nat, b: Block, order: seq<nat>, answers: seq<Answer>)
    requires |answers| == |order|
    decreases |order|
  {
    order == [] || Room(tbs, taLen, b) <= 0 ||
    ( && (answers[0].Pdu? ==> |answers[0].octets| <= Room(tbs, taLen, b))
      && WithinOffers(tbs, taLen, Take(b, order[0], answers[0]), order[1..], answers[1..]))
  }

  /** Everything counted so far fits in the transport block. */
  predicate Fits(tbs: nat, taLen: nat, b: Block) {
    taLen + b.headerTotal + b.SduTotal() <= tbs
  }

  /** Lists of one block belong together, and the last subheader is the one of the last SDU. */
  predicate Consistent(b: Block) {
    && |b.pdus| == |b.lcids|
    && b.headerTotal == Sum(Subheaders(b.pdus))
    && (b.pdus == [] ==> b.headerLast == 0)
    && (b.pdus != [] ==> b.headerLast == SubheaderLen(|b.pdus[|b.pdus| - 1]|))
  }

  function Subheaders(pdus: seq<seq<byte>>): (r: seq<nat>)
    ensures |r| == |pdus|
  {
    seq(|pdus|, i requires 0 <= i < |pdus| => SubheaderLen(|pdus[i]|))
  }

  lemma AddConsistent(b: Block, lcid: nat, pdu: seq<byte>)
    requires Consistent(b)
    ensures Consistent(Add(b, lcid, pdu))
  {
    var subs := Subheaders(b.pdus + [pdu]);
    assert subs[..|b.pdus|] == Subheaders(b.pdus);
  }

  /** Whatever RLC answers within its offers, the block fits at every point of the gathering. */
  lemma {:induction false} GatherFits(tbs: nat, taLen: nat, b: Block, order: seq<nat>, answers: seq<Answer>)
    requires |answers| == |order|
    requires Fits(tbs, taLen, b) && Consistent(b) && WithinOffers(tbs, taLen, b, order, answers)
    ensures var r := Gather(tbs, taLen, b, order, answers);
      && Fits(tbs, taLen, r) && Consistent(r)
      && b.pdus <= r.pdus && b.lcids <= r.lcids
      && forall i :: |b.lcids| <= i < |r.lcids| ==> r.lcids[i] in order
    decreases |order|
  {
    if order != [] && Room(tbs, taLen, b) > 0 {
      var c := Take(b, order[0], answers[0]);
      if answers[0].Pdu? { AddConsistent(b, order[0], answers[0].octets); }
      GatherFits(tbs, taLen, c, order[1..], answers[1..]);
      var r := Gather(tbs, taLen, b, order, answers);
      forall i | |b.lcids| <= i < |r.lcids| ensures r.lcids[i] in order {
        if i < |c.lcids| { assert r.lcids[i] == c.lcids[i]; }
      }
    }
  }

  /** Signalling bearers are asked before the data bearers. */
  function FullOrder(t: nat, fiInd: nat): (r: seq<nat>)
    ensures |r| == 13
  {
    [1, 2] + PollOrder(t, fiInd)
  }

  /** One more bearer of the order. */
  lemma GatherNext(tbs: nat, taLen: nat, b: Block, order: seq<nat>, answers: seq<Answer>, i: nat)
    requires |answers| == |order| && i < |order| && Room(tbs, taLen, b) > 0
    ensures var c := Take(b, order[i], answers[i]);
      && Gather(tbs, taLen, b, order[i..], answers[i..]) == Gather(tbs, taLen, c, order[i + 1..], answers[i + 1..])
      && (WithinOffers(tbs, taLen, b, order[i..], answers[i..]) ==>
            && (answers[i].Pdu? ==> |answers[i].octets| <= Room(tbs, taLen, b))
            && WithinOffers(tbs, taLen, c, order[i + 1..], answers[i + 1..]))
  {
    assert order[i..][1..] == order[i + 1..] && answers[i..][1..] == answers[i + 1..];
  }

  lemma GatherDone(tbs: nat, taLen: nat, b: Block, order: seq<nat>, answers: seq<Answer>, i: nat)
    requires |answers| == |order| && i <= |order| && (i == |order| || Room(tbs, taLen, b) <= 0)
    ensures Gather(tbs, taLen, b, order[i..], answers[i..]) == b
  {
  }

  /**
   The gathering as the source runs it: octets go to `dlsch` back to back, lengths and LCIDs to
   their lists, and the loop stops at the first bearer to which nothing can be offered.
   */
  method GatherBlock(tbs: nat, taLen: nat, order: seq<nat>, answers: seq<Answer>, dlsch: array<byte>)
    returns (lens: seq<nat>, lcids: seq<nat>, headerTotal: nat, headerLast: nat, sduTotal: nat)
    requires |answers| == |order| && tbs <= dlsch.Length
    requires WithinOffers(tbs, taLen, EMPTY_BLOCK, order, answers)
    modifies dlsch
    ensures var b := Gather(tbs, taLen, EMPTY_BLOCK, order, answers);
      && lens == Lengths(b.pdus) && lcids == b.lcids
      && headerTotal == b.headerTotal && headerLast == b.headerLast && sduTotal == b.SduTotal()
      && sduTotal <= dlsch.Length && dlsch[..sduTotal] == Concat(b.pdus)
      && (taLen <= tbs ==> taLen + headerTotal + sduTotal <= tbs)
  {
    hide Gather, WithinOffers, Concat;
    lens, lcids, headerTotal, headerLast, sduTotal := [], [], 0, 0, 0;
    ghost var b := EMPTY_BLOCK;
    var i := 0;
    assert order[0..] == order && answers[0..] == answers;
    assert Concat([]) == [] by { NoPieces(); }
    while i < |order|
      invariant i <= |order|
      invariant Gather(tbs, taLen, b, order[i..], answers[i..]) == Gather(tbs, taLen, EMPTY_BLOCK, order, answers)
      invariant WithinOffers(tbs, taLen, b, order[i..], answers[i..])
      invariant lens == Lengths(b.pdus) && lcids == b.lcids
      invariant headerTotal == b.headerTotal && headerLast == b.headerLast && sduTotal == b.SduTotal()
      invariant taLen <= tbs ==> Fits(tbs, taLen, b)
      invariant sduTotal <= tbs && dlsch[..sduTotal] == Concat(b.pdus)
    {
      if tbs - taLen - headerTotal - sduTotal - 3 <= 0 {
        break;
      }
      GatherNext(tbs, taLen, b, order, answers, i);
      match answers[i] {
        case NoBytes =>
        case Pdu(octets) =>
          ConcatNext(b.pdus, octets);
          Put(dlsch, sduTotal, octets);
          lens, lcids := lens + [|octets|], lcids + [order[i]];
          sduTotal := sduTotal + |octets|;
          headerLast := 1 + 1 + (if |octets| >= 128 then 1 else 0);
          headerTotal := headerTotal + headerLast;
      }
      b := Take(b, order[i], answers[i]);
      i := i + 1;
    }
    GatherDone(tbs, taLen, b, order, answers, i);
  }

  lemma NoPieces()
    ensures Concat([]) == []
  {
  }

  lemma ConcatNext(pieces: seq<seq<byte>>, p: seq<byte>)
    ensures Concat(pieces + [p]) == Concat(pieces) + p
    ensures Lengths(pieces + [p]) == Lengths(pieces) + [|p|]
  {
    assert (pieces + [p])[..|pieces|] == pieces;
  }
}
