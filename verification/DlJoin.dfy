/**
 The steps of the stream model are the passes of the scheduler: a block in a run carries exactly the
 octets that the pass over the UE puts into its payload, and leaves the same sn and fi_ind.
 */
module DlJoin {
  import opened Bytes
  import opened RlcUmd
  import opened RlcHeader
  import opened RlcMeaning
  import RlcMerge
  import opened DlGather
  import opened RlcReassembly
  import opened TransportBlock
  import opened DlStream
  import Scheduler

  /** The block that the pass gathers in the situation of a step. */
  function PassBlock(s: State, e: Event): (r: Block)
    requires e.Send? && |e.answers| == 13
  {
    Scheduler.Gathered(e.tbs, e.ta, FullOrder(e.t, s.fiInd), e.answers)
  }

  lemma SameBlock(s: State, e: Event)
    requires e.Send? && Permitted(s, e)
    ensures var b := PassBlock(s, e); var r := Round(s, e);
      b.pdus == r.pdus && b.lcids == r.lcids && Consistent(b)
    ensures WithinOffers(e.tbs, TaLen(e.ta), EMPTY_BLOCK, FullOrder(e.t, s.fiInd), e.answers)
  {
    hide Poll, HonestPolls, FullOrder, Gather, WithinOffers, Mergeable, NoSignalling, ValidBearer, Consistent;
    NoPieces();
    PollIsGather(s.bearers, e.tbs, TaLen(e.ta), EMPTY_BLOCK, FullOrder(e.t, s.fiInd), e.answers);
    assert Room(e.tbs, TaLen(e.ta), EMPTY_BLOCK) == Offer(e);
    EmptyConsistent();
    GatherFits(e.tbs, TaLen(e.ta), EMPTY_BLOCK, FullOrder(e.t, s.fiInd), e.answers);
    assert [] + Round(s, e).pdus == Round(s, e).pdus && [] + Round(s, e).lcids == Round(s, e).lcids;
  }

  lemma EmptyConsistent()
    ensures Consistent(EMPTY_BLOCK)
  {
    assert Subheaders([]) == [];
  }

  lemma PassReadable(s: State, e: Event)
    requires e.Send? && Permitted(s, e) && Round(s, e).pdus != []
    ensures var b := PassBlock(s, e); var r := Round(s, e); var hdr := CountedHeader(b);
      && Scheduler.BlockReadable(b) && b.pdus == r.pdus && b.lcids == r.lcids && |b.lcids| == |b.pdus|
      && hdr == OpenSize(Lengths(b.pdus)) && 1 <= hdr && Need(b.pdus, e.ta) == TaLen(e.ta) + hdr + b.SduTotal()
  {
    hide Poll, HonestPolls, FullOrder, Gather, FieldsOf, Round, Parse, OpenSize, PassBlock, Consistent, CountedHeader,
      Concat, Sum, AllWellFormed, Shaped, Representable;
    var b := PassBlock(s, e);
    SameBlock(s, e);
    CountedIsOpen(b);
    RlcMerge.ConcatLength(b.pdus);
    SameFi(b.pdus);
  }

  /** The merge of a gathered block is the one that the stream model sends. */
  lemma SameMerge(b: Block, fiInd: nat, sn: nat)
    requires b.pdus != [] && CanMerge(b.pdus) && sn < 1024 && |b.lcids| == |b.pdus| && Scheduler.BlockReadable(b)
    ensures AllWellFormed(b.pdus) && 0 < |FieldsOf(b.pdus)| <= 65
    ensures Scheduler.MergedOf(b, fiInd, sn) == BlockOf(b.pdus, fiInd, sn)
    ensures var n := |b.pdus| - 1;
      Scheduler.OpenBearer(b, fiInd) == if EndsInside(RlcMerge.MergedFi(FiOf(b.pdus[n]), fiInd)) then b.lcids[n] else 0
  {
    hide FieldsOf, Parse, AllWellFormed, RlcMerge.MergedFi, Fi, FiOf;
    SameFi(b.pdus);
  }

  /** Signalling bearers that have nothing never supply a PDU, and all PDUs are readable. */
  lemma {:induction false} HonestIsSound(bs: Bearers, tbs: nat, taLen: nat, b: Block, order: seq<nat>,
      answers: seq<Answer>)
    requires ValidBearers(bs) && |answers| == |order|
    requires HonestPolls(bs, Room(tbs, taLen, b), order, answers)
    requires forall l :: l in bs && l < RlcMerge.DTCH ==> bs[l].queue == []
    ensures Scheduler.Sound(tbs, taLen, b, order, answers)
    decreases |order|
  {
    hide Parse, CutShort, Concat;
    if order != [] && Room(tbs, taLen, b) > 0 {
      var l, a := order[0], answers[0];
      RoomTaken(tbs, taLen, b, l, a);
      if a.Pdu? { ParsedSize(a.octets); }
      HonestIsSound(bs[l := Served(bs[l], a)], tbs, taLen, Take(b, l, a), order[1..], answers[1..]);
    }
  }

  /** Everything that the pass asks of the answers holds of those of a step. */
  lemma StepIsPass(s: State, e: Event)
    requires Inv(s) && e.Send? && Permitted(s, e)
    ensures var order := FullOrder(e.t, s.fiInd);
      && WithinOffers(e.tbs, TaLen(e.ta), EMPTY_BLOCK, order, e.answers)
      && Scheduler.Sound(e.tbs, TaLen(e.ta), EMPTY_BLOCK, order, e.answers)
      && (s.fiInd == 0 || s.fiInd >= RlcMerge.DTCH)
  {
    hide Poll, HonestPolls, FullOrder, WithinOffers, Mergeable, Scheduler.Sound, Payloads, Project, Need, Concat, Round,
      ValidBearer;
    SameBlock(s, e);
    NoPieces();
    assert Room(e.tbs, TaLen(e.ta), EMPTY_BLOCK) == Offer(e);
    forall l | l in s.bearers && l < RlcMerge.DTCH ensures s.bearers[l].queue == [] {
      assert s.accepted[l] == [];
    }
    HonestIsSound(s.bearers, e.tbs, TaLen(e.ta), EMPTY_BLOCK, FullOrder(e.t, s.fiInd), e.answers);
    if s.fiInd != 0 { OpenHasData(s.bearers, s.fiInd); }
  }

  lemma OpenHasData(bs: Bearers, c: nat)
    requires ValidBearers(bs) && OpenAt(bs, c)
    ensures bs[c].queue != []
  {
  }

  /**
   What the UE hears in a step is what `Scheduler.ScheduleNewData` sends for that round, in a block of
   the granted size.
   */
  lemma PassIsStep(s: State, e: Event)
    requires e.Send? && Permitted(s, e) && Round(s, e).pdus != []
    ensures var b := PassBlock(s, e); var t := Next(s, e); var hdr := CountedHeader(b);
      && Scheduler.BlockReadable(b) && AllWellFormed(b.pdus) && b.pdus != [] && |b.lcids| == |b.pdus|
      && 0 < |FieldsOf(b.pdus)| <= 65 && 1 <= hdr
      && TaLen(e.ta) + hdr + b.SduTotal() <= e.grant <= e.tbs
      && t.sn == (s.sn + 1) % 1024 && t.fiInd == Scheduler.OpenBearer(b, s.fiInd)
      && var m := Scheduler.MergedOf(b, s.fiInd, t.sn);
      && hdr + |m| + TaLen(e.ta) <= e.grant
      && t.rx == Hear(s.rx, OnAir(e.grant, hdr, e.ta, m))
  {
    hide Poll, HonestPolls, FullOrder, Gather, FieldsOf, Round, Parse, OnAir, Hear, OpenSize, PassBlock, Consistent,
      CountedHeader, Concat, Sum, AllWellFormed, Shaped, RlcMerge.MergedFi, Fi, FiOf, CanMerge, Need, MergedSize,
      Scheduler.BlockReadable, Scheduler.MergedOf, Scheduler.OpenBearer, BlockOf, EndsInside;
    var sn := (s.sn + 1) % 1024;
    PassReadable(s, e);
    SameMerge(PassBlock(s, e), s.fiInd, sn);
    AirFits(PassBlock(s, e).pdus, s.fiInd, sn, e.ta, e.grant);
  }

  lemma SameFi(pdus: seq<seq<byte>>)
    requires forall i :: 0 <= i < |pdus| ==> WellFormed(pdus[i])
    ensures forall i :: 0 <= i < |pdus| ==> pdus[i] != [] && FiOf(pdus[i]) == Fi(pdus[i])
  {
    forall i | 0 <= i < |pdus| ensures pdus[i] != [] && FiOf(pdus[i]) == Fi(pdus[i]) {
      ParsedSize(pdus[i]);
    }
  }
}
