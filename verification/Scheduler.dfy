/**
 One pass of the downlink scheduler over a UE with new data (eNB_scheduler_dlsch.c), for a block
 without signalling data: gather, size, merge, print the header, fill the transport block.
 */
module Scheduler {
  import opened Bytes
  import opened RlcUmd
  import opened RlcHeader
  import opened RlcMeaning
  import opened RlcMerge
  import DlGather
  import opened RbSearch
  import opened MacHeader
  import opened MacPdu
  import opened TransportBlock

  datatype Result = Nothing | Sent(nbRb: nat, mcs: nat, tbs: nat) | Overrun

  predicate BlockReadable(b: DlGather.Block) {
    forall i :: 0 <= i < |b.pdus| ==> b.pdus[i] != [] && WellFormed(b.pdus[i])
  }

  predicate DataOnly(lcids: seq<nat>) {
    forall i :: 0 <= i < |lcids| ==> lcids[i] >= DTCH
  }

  /** The answers of a round: every PDU is a readable one of a data bearer; signalling bearers have nothing to send. */
  predicate Sound(tbs: nat, taLen: nat, b: DlGather.Block, order: seq<nat>, answers: seq<DlGather.Answer>)
    requires |answers| == |order|
    decreases |order|
  {
    order == [] || DlGather.Room(tbs, taLen, b) <= 0 ||
    ( && (answers[0].Pdu? ==> answers[0].octets != [] && WellFormed(answers[0].octets) && order[0] >= DTCH)
      && Sound(tbs, taLen, DlGather.Take(b, order[0], answers[0]), order[1..], answers[1..]))
  }

  lemma {:induction false} GatheredSound(tbs: nat, taLen: nat, b: DlGather.Block, order: seq<nat>,
                                         answers: seq<DlGather.Answer>)
    requires |answers| == |order| && Sound(tbs, taLen, b, order, answers) && BlockReadable(b) && DataOnly(b.lcids)
    ensures var g := DlGather.Gather(tbs, taLen, b, order, answers); BlockReadable(g) && DataOnly(g.lcids)
    decreases |order|
  {
    hide WellFormed;
    if order != [] && DlGather.Room(tbs, taLen, b) > 0 {
      var c := DlGather.Take(b, order[0], answers[0]);
      assert BlockReadable(c) && DataOnly(c.lcids);
      GatheredSound(tbs, taLen, c, order[1..], answers[1..]);
    }
  }

  /** Copies the SDU octets behind the header and clears the rest of the block. */
  method FillBlock(payload: array<byte>, offset: nat, sdus: array<byte>, n: nat, tbs: nat)
    requires offset + n <= tbs <= payload.Length && n <= sdus.Length && payload != sdus
    modifies payload
    ensures payload[..tbs] == old(payload[..offset]) + sdus[..n] + Zeros(tbs - n - offset)
  {
    Put(payload, offset, sdus[..n]);
    ghost var head := payload[..offset + n];
    var j := 0;
    while j < tbs - n - offset
      invariant 0 <= j <= tbs - n - offset
      invariant payload[..offset + n] == head
      invariant forall k :: offset + n <= k < offset + n + j ==> payload[k] == 0
    {
      payload[offset + n + j] := 0;
      j := j + 1;
    }
    ghost var whole := payload[..tbs];
    assert whole == whole[..offset + n] + whole[offset + n..];
    assert whole[..offset + n] == head;
    assert whole[offset + n..] == Zeros(tbs - n - offset);
  }

  /** Padding, header and payload of a block whose only SDU is in `dlsch`. */
  method PrintBlock(payload: array<byte>, dlsch: array<byte>, tbs: nat, hdr: nat, ta: nat, len: nat, ghost m: seq<byte>)
    requires payload != dlsch && len == |m| < 32768 && len <= dlsch.Length && dlsch[..len] == m
    requires 1 <= hdr && hdr + len + TaLen(ta) <= tbs && tbs + 50 <= payload.Length && (ta == 31 || ta < 64)
    modifies payload
    ensures payload[..tbs] == OnAir(tbs, hdr, ta, m)
  {
    hide Offset, BlockElements, Printed, ControlElements;
    MergedBlockFits(tbs, hdr, ta, len);
    var spare := tbs - hdr - len - TaLen(ta);
    var short, post := if spare <= 2 then spare else 0, if spare <= 2 then 0 else 1;
    var offset := GenerateHeader(payload, [len], [3], 255, ta, None, short, post);
    ghost var padding := ChoosePadding(spare);
    OffsetUnfold(ta, padding, [len], [3]);
    FillBlock(payload, offset, dlsch, len, tbs);
    NoMore(m);
  }

  method PrintTaOnly(payload: array<byte>, dlsch: array<byte>, tbs: nat, ta: nat)
    requires payload != dlsch && ta < 64 && ta != 31 && TaLen(ta) <= tbs && tbs + 50 <= payload.Length
    modifies payload
    ensures payload[..tbs] == OnAirTaOnly(tbs, ta)
  {
    hide Offset, BlockElements, Printed, ControlElements;
    TaOnlyFits(tbs, ta);
    var spare := tbs - TaLen(ta);
    var short, post := if spare <= 2 then spare else 0, if spare <= 2 then 0 else 1;
    var offset := GenerateHeader(payload, [], [], 255, ta, None, short, post);
    ghost var padding := ChoosePadding(spare);
    OffsetUnfold(ta, padding, [], []);
    FillBlock(payload, offset, dlsch, 0, tbs);
    assert Concat([]) == [] && dlsch[..0] == [];
  }

  lemma OffsetUnfold(ta: nat, padding: Padding, lens: seq<nat>, lcids: seq<nat>)
    requires ValidSdus(lens, lcids) && AllValid(BlockElements(ta, padding, lens, lcids))
    requires BlockElements(ta, padding, lens, lcids) != []
    ensures BlockElements(ta, padding, lens, lcids) == Elements(255, ta, None, padding.short, lens, lcids)
    ensures Offset(ta, padding, lens, lcids) ==
            |Printed(BlockElements(ta, padding, lens, lcids), padding.post > 0)| + |ControlElements(ta, None)|
  {
  }

  /** What RLC has handed over in this round. */
  function Gathered(tbs: nat, ta: nat, order: seq<nat>, answers: seq<DlGather.Answer>): (r: DlGather.Block)
    requires |answers| == |order|
  {
    DlGather.Gather(tbs, TaLen(ta), DlGather.EMPTY_BLOCK, order, answers)
  }

  /** The merged PDU of a gathered block. */
  function MergedOf(b: DlGather.Block, fiInd: nat, sn: nat): (r: seq<byte>)
    requires BlockReadable(b) && b.pdus != [] && AllWellFormed(b.pdus)
    requires 0 < |FieldsOf(b.pdus)| <= MAX_FIELDS && sn < 1024
  {
    MergedPdu(FieldsOf(b.pdus), MergedFi(Fi(b.pdus[|b.pdus| - 1]), fiInd), sn)
  }

  /** The bearer that is left in the middle of an SDU, which the next round polls ahead of its turn. */
  function OpenBearer(b: DlGather.Block, fiInd: nat): (r: nat)
    requires b.pdus != [] && b.pdus[|b.pdus| - 1] != [] && |b.lcids| == |b.pdus|
  {
    var n := |b.pdus| - 1;
    if MergedFi(Fi(b.pdus[n]), fiInd) % 2 == 1 then b.lcids[n] else 0
  }

  lemma ReadableIsWellFormed(b: DlGather.Block)
    requires BlockReadable(b)
    ensures AllWellFormed(b.pdus)
    ensures b.pdus != [] ==> FieldsOf(b.pdus) != []
  {
    hide Parse;
    if b.pdus != [] {
      var p := b.pdus[|b.pdus| - 1];
      assert Readable(p);
    }
  }

  /**
   From the bearers' PDUs to the UE: it reads exactly the data fields that were gathered, in order,
   if and only if more than two octets of the block are spare or only one PDU was gathered.
   */
  lemma UeGetsFields(tbs: nat, ta: nat, b: DlGather.Block, fiInd: nat, sn: nat)
    requires BlockReadable(b) && DlGather.Consistent(b) && b.pdus != [] && AllWellFormed(b.pdus) && sn < 1024
    requires Representable(Lengths(FieldsOf(b.pdus)))
    requires TaLen(ta) + CountedHeader(b) + b.SduTotal() <= tbs < 32768
    ensures var m := MergedOf(b, fiInd, sn); var hdr := CountedHeader(b); var last := b.pdus[|b.pdus| - 1];
      && |m| <= b.SduTotal() && 1 <= hdr
      && var r := ReadPdu(OnAir(tbs, hdr, ta, m));
      && r.Some? && |r.value.sdus| == 1 && Channels(r.value) == [3]
      && (Parse(r.value.sdus[0]) == Some(Umd(MergedFi(Fi(last), fiInd), sn, FieldsOf(b.pdus))) <==>
            tbs - hdr - |m| - TaLen(ta) > 2 || |b.pdus| == 1)
  {
    hide FieldsOf, AllWellFormed, OnAir, ReadPdu, Channels, Parse, BlockReadable, Representable, MergedOf, MergedFi, Fi,
      CountedHeader, DlGather.Consistent, Concat;
    MergedReads(b, fiInd, sn);
    UeTakes(tbs, CountedHeader(b), ta, MergedOf(b, fiInd, sn));
    UeReads(tbs, CountedHeader(b), ta, MergedOf(b, fiInd, sn));
  }

  lemma MergedReads(b: DlGather.Block, fiInd: nat, sn: nat)
    requires BlockReadable(b) && DlGather.Consistent(b) && b.pdus != [] && AllWellFormed(b.pdus) && sn < 1024
    requires Representable(Lengths(FieldsOf(b.pdus)))
    ensures 0 < |FieldsOf(b.pdus)| <= MAX_FIELDS && b.pdus[|b.pdus| - 1] != []
    ensures var m := MergedOf(b, fiInd, sn);
      && Parse(m) == Some(Umd(MergedFi(Fi(b.pdus[|b.pdus| - 1]), fiInd), sn, FieldsOf(b.pdus)))
      && |m| <= b.SduTotal() && 1 <= CountedHeader(b) && (CountedHeader(b) == 1 <==> |b.pdus| == 1)
  {
    assert b.pdus[|b.pdus| - 1] != [];
    assert |Lengths(FieldsOf(b.pdus))| <= MAX_FIELDS;
    hide FieldsOf, AllWellFormed, MergedPdu, Parse, BlockReadable, Representable, MergedFi, Fi,
      CountedHeader, DlGather.Consistent, Concat;
    var fi := MergedFi(Fi(b.pdus[|b.pdus| - 1]), fiInd);
    FieldsNonEmpty(b.pdus);
    RepresentableReadsBack(FieldsOf(b.pdus), fi, sn);
    CountedIsOpen(b);
    MergeNeverGrows(b.pdus, fi, sn);
    TotalIs(b);
  }

  lemma TotalIs(b: DlGather.Block)
    ensures b.SduTotal() == Sum(Lengths(b.pdus))
  {
    ConcatLength(b.pdus);
  }

  /**
   The pass over one UE. Given a transport block size table that is monotone, RLC answers within
   their offers, a starting size within what is available and an MCS within the climb limit, a
   block that is sent has a size the UE was granted, and its octets are the header, the merged PDU
   and zeros. Nothing is sent only if nothing was gathered and no timing advance is due. `t` counts
   subframes; the bearers are polled in the source's order.
   */
  method ScheduleNewData(f: TbsTable, mcs0: nat, unit: nat, available: nat, powOff: nat, ta: nat, t: nat,
                         answers: seq<DlGather.Answer>, stats: UeStats, dlsch: array<byte>, payload: array<byte>)
    returns (r: Result)
    requires Monotone(f) && unit > 0 && StartRbs(mcs0, unit) <= available && mcs0 <= ClimbLimit(powOff)
    requires (ta == 31 || ta < 64) && 2 <= f(mcs0, available) < 32768
    requires f(mcs0, available) + 2 <= dlsch.Length && f(mcs0, available) + 50 <= payload.Length && payload != dlsch
    requires stats.sn < 1024 && (stats.fiInd == 0 || stats.fiInd >= DTCH)
    requires |answers| == 13
    requires Sound(f(mcs0, available), TaLen(ta), DlGather.EMPTY_BLOCK, DlGather.FullOrder(t, stats.fiInd), answers)
    requires DlGather.WithinOffers(f(mcs0, available), TaLen(ta), DlGather.EMPTY_BLOCK,
                                   DlGather.FullOrder(t, stats.fiInd), answers)
    modifies stats, dlsch, payload
    ensures r.Sent? ==> stats.fiInd == 0 || stats.fiInd >= DTCH
    ensures var b := Gathered(f(mcs0, available), ta, DlGather.FullOrder(t, old(stats.fiInd)), answers);
      && BlockReadable(b) && AllWellFormed(b.pdus)
      && (r.Nothing? <==> b.pdus == [] && ta == 31)
      && (r.Overrun? <==> |FieldsOf(b.pdus)| > MAX_FIELDS)
      && (r.Sent? ==>
            && r.tbs == f(r.mcs, r.nbRb) && r.nbRb <= available && r.mcs <= mcs0
            && TaLen(ta) + CountedHeader(b) + b.SduTotal() <= r.tbs <= f(mcs0, available) && TaLen(ta) <= r.tbs)
      && (r.Sent? && b.pdus != [] ==>
            && |b.lcids| == |b.pdus|
            && stats.sn == (old(stats.sn) + 1) % 1024 && stats.fiInd == OpenBearer(b, old(stats.fiInd))
            && var m := MergedOf(b, old(stats.fiInd), stats.sn); var hdr := CountedHeader(b);
            && |m| <= b.SduTotal() && 1 <= hdr
            && payload[..r.tbs] == OnAir(r.tbs, hdr, ta, m))
      && (b.pdus == [] ==> stats.sn == old(stats.sn) && stats.fiInd == old(stats.fiInd))
      && (r.Sent? && b.pdus == [] ==> payload[..r.tbs] == OnAirTaOnly(r.tbs, ta))
  {
    hide DlGather.Gather, DlGather.WithinOffers, DlGather.FullOrder, FieldsOf, AllWellFormed, Concat, MergedPdu,
      Sound, OnAir, OnAirTaOnly, MergedOf, Monotone;
    var tbs0, order := f(mcs0, available), DlGather.FullOrder(t, stats.fiInd);
    ghost var b := Gathered(tbs0, ta, order, answers);
    GatheredFacts(tbs0, ta, order, answers);
    ReadableIsWellFormed(b);
    CountedIsOpen(b);
    var lens, lcids, headerTotal, headerLast, sduTotal := DlGather.GatherBlock(tbs0, TaLen(ta), order, answers, dlsch);
    var hdr := if headerTotal > 0 then headerTotal - headerLast + 1 else 0;
    assert hdr == CountedHeader(b);
    EmptyFacts();
    if TaLen(ta) + sduTotal + hdr == 0 {
      return Nothing;
    }
    GatheredNeed(tbs0, TaLen(ta), b);
    var nbRb, mcs, tbs := ChooseSize(f, mcs0, unit, available, TaLen(ta) + sduTotal + hdr, powOff);
    if |lens| == 0 {
      assert b.pdus == [];
      PrintTaOnly(payload, dlsch, tbs, ta);
      return Sent(nbRb, mcs, tbs);
    }
    r := MergeAndPrint(tbs, hdr, ta, lens, lcids, stats, dlsch, payload, nbRb, mcs, b);
  }

  /** The part of the pass that follows the size search, for a block with data. */
  method MergeAndPrint(tbs: nat, hdr: nat, ta: nat, lens: seq<nat>, lcids: seq<nat>, stats: UeStats,
                       dlsch: array<byte>, payload: array<byte>, nbRb: nat, mcs: nat, ghost b: DlGather.Block)
    returns (r: Result)
    requires BlockReadable(b) && AllWellFormed(b.pdus) && b.pdus != [] && |b.lcids| == |b.pdus|
    requires lens == Lengths(b.pdus) && lcids == b.lcids && DataOnly(lcids)
    requires b.SduTotal() + 2 <= dlsch.Length && dlsch[..b.SduTotal()] == Concat(b.pdus) && stats.sn < 1024
    requires 1 <= hdr && TaLen(ta) + hdr + b.SduTotal() <= tbs < 32768 && (ta == 31 || ta < 64)
    requires tbs + 50 <= payload.Length && payload != dlsch
    modifies stats, dlsch, payload
    ensures r.Overrun? <==> |FieldsOf(b.pdus)| > MAX_FIELDS
    ensures !r.Overrun? ==>
      && r == Sent(nbRb, mcs, tbs) && FieldsOf(b.pdus) != []
      && stats.sn == (old(stats.sn) + 1) % 1024 && stats.fiInd == OpenBearer(b, old(stats.fiInd))
      && var m := MergedOf(b, old(stats.fiInd), stats.sn);
      && |m| <= b.SduTotal() && payload[..tbs] == OnAir(tbs, hdr, ta, m)
  {
    hide FieldsOf, AllWellFormed, Concat, MergedOf, OnAir, BlockReadable, OpenBearer;
    var ok, len := MergeData(lens, lcids, stats, dlsch, b);
    if !ok {
      return Overrun;
    }
    PrintBlock(payload, dlsch, tbs, hdr, ta, len, MergedOf(b, old(stats.fiInd), stats.sn));
    r := Sent(nbRb, mcs, tbs);
  }

  /** The merge of a block without signalling, by the PDUs it gathered. */
  method MergeData(lens: seq<nat>, lcids: seq<nat>, stats: UeStats, dlsch: array<byte>, ghost b: DlGather.Block)
    returns (ok: bool, len: nat)
    requires BlockReadable(b) && AllWellFormed(b.pdus) && b.pdus != [] && |b.lcids| == |b.pdus|
    requires lens == Lengths(b.pdus) && lcids == b.lcids && DataOnly(lcids)
    requires b.SduTotal() + 2 <= dlsch.Length && dlsch[..b.SduTotal()] == Concat(b.pdus) && stats.sn < 1024
    modifies stats, dlsch
    ensures ok <==> |FieldsOf(b.pdus)| <= MAX_FIELDS
    ensures ok ==>
      && FieldsOf(b.pdus) != []
      && stats.sn == (old(stats.sn) + 1) % 1024 && stats.fiInd == OpenBearer(b, old(stats.fiInd))
      && var m := MergedOf(b, old(stats.fiInd), stats.sn);
      && len == |m| <= b.SduTotal() && dlsch[..len] == m
  {
    assert b.pdus[|b.pdus| - 1] != [];
    hide FieldsOf, AllWellFormed, Concat, MergedPdu, Pdus, LastFi, MergedFi, Sum, BlockReadable, Fi,
      Start, BlockPdu, MergedOf, BlockMerged, OpenBearer;
    ReadableIsWellFormed(b);
    ghost var s := dlsch[..];
    assert Concat(b.pdus) <= s;
    GatheredPdus(b.pdus, s);
    var out := MergeBlock(dlsch, lens, lcids, stats, 0, 0);
    DataMerged(b, s, lcids[|lcids| - 1], old(stats.fiInd), old(stats.sn), dlsch[..], stats.fiInd, stats.sn, out);
    ok, len := out.Merged?, if out.Merged? then out.sduLength else 0;
  }

  /** What the merge leaves at the front of the buffer, by the gathered PDUs. */
  lemma DataMerged(b: DlGather.Block, s: seq<byte>, lastLcid: nat, fiInd: nat, sn: nat,
                   d: seq<byte>, fiInd': nat, sn': nat, out: Outcome)
    requires BlockReadable(b) && b.pdus != [] && AllWellFormed(b.pdus) && sn < 1024
    requires Concat(b.pdus) <= s && |Concat(b.pdus)| < |s| && FieldsOf(b.pdus) != []
    requires Sum(Lengths(b.pdus)) < |s| && Pdus(s, Lengths(b.pdus), 0, |b.pdus|) == b.pdus
    requires b.pdus[|b.pdus| - 1] != [] && LastFi(s, Lengths(b.pdus)) == Fi(b.pdus[|b.pdus| - 1])
    requires |b.lcids| == |b.pdus| && lastLcid == b.lcids[|b.lcids| - 1]
    requires BlockMerged(s, Lengths(b.pdus), 0, lastLcid, 0, fiInd, sn, d, fiInd', sn', out)
    ensures out.Merged? <==> |FieldsOf(b.pdus)| <= MAX_FIELDS
    ensures out.Merged? ==>
      && sn' == (sn + 1) % 1024 && fiInd' == OpenBearer(b, fiInd)
      && var m := MergedOf(b, fiInd, sn');
      && out.sduLength == |m| <= b.SduTotal() && |m| <= |d| && d[..|m|] == m
  {
    hide FieldsOf, AllWellFormed, Concat, MergedPdu, Pdus, LastFi, MergedFi, Sum, BlockReadable, Fi,
      Start, BlockPdu, MergedOf;
    StartIsZero(Lengths(b.pdus));
    if |FieldsOf(b.pdus)| <= MAX_FIELDS {
      BlockPduIs(b, s, fiInd, sn');
      OnlyMerged(s, MergedOf(b, fiInd, sn'), d);
    }
  }

  lemma BlockPduIs(b: DlGather.Block, s: seq<byte>, fiInd: nat, sn: nat)
    requires BlockReadable(b) && b.pdus != [] && AllWellFormed(b.pdus)
    requires 0 < |FieldsOf(b.pdus)| <= MAX_FIELDS && sn < 1024
    requires Concat(b.pdus) <= s && |Concat(b.pdus)| < |s|
    ensures var lens := Lengths(b.pdus);
      && Sum(lens) < |s| && Pdus(s, lens, 0, |lens|) == b.pdus
      && BlockPdu(s, lens, 0, fiInd, sn) == MergedOf(b, fiInd, sn)
      && |MergedOf(b, fiInd, sn)| <= b.SduTotal()
  {
    hide FieldsOf, AllWellFormed, Concat, MergedPdu, Sum, Pdus, LastFi;
    GatheredPdus(b.pdus, s);
    MergeNeverGrows(b.pdus, MergedFi(Fi(b.pdus[|b.pdus| - 1]), fiInd), sn);
  }

  lemma OnlyMerged(s: seq<byte>, m: seq<byte>, d: seq<byte>)
    requires |m| <= |d| && d == s[..0] + m + Zeros(|d| - |m|)
    ensures d[..|m|] == m
  {
  }

  lemma EmptyFacts()
    ensures Concat([]) == [] && FieldsOf([]) == []
  {
  }

  lemma StartIsZero(lens: seq<nat>)
    ensures Start(lens, 0) == 0
  {
  }

  /** Everything known about a round that keeps to its offers. */
  lemma GatheredFacts(tbs: nat, ta: nat, order: seq<nat>, answers: seq<DlGather.Answer>)
    requires |answers| == |order| && Sound(tbs, TaLen(ta), DlGather.EMPTY_BLOCK, order, answers) && TaLen(ta) <= tbs
    requires DlGather.WithinOffers(tbs, TaLen(ta), DlGather.EMPTY_BLOCK, order, answers)
    ensures var b := Gathered(tbs, ta, order, answers);
      && BlockReadable(b) && DlGather.Consistent(b) && DlGather.Fits(tbs, TaLen(ta), b)
      && DataOnly(b.lcids)
  {
    GatheredSound(tbs, TaLen(ta), DlGather.EMPTY_BLOCK, order, answers);
    DlGather.GatherFits(tbs, TaLen(ta), DlGather.EMPTY_BLOCK, order, answers);
  }

  // ----- blocks with signalling

  /** The SDUs of a block with signalling, as the merge leaves them and as the header announces them. */
  function Announced(srbs: seq<seq<byte>>, m: seq<byte>): (r: seq<seq<byte>>) {
    srbs + [m + Zeros(|Concat(srbs)|)]
  }

  /** The octets that are sent behind the header: the merged PDU's length counts the signalling octets again. */
  lemma SignallingSent(s: seq<byte>, lens: seq<nat>, n: nat, lastLcid: nat, fiInd: nat, sn: nat,
                       d: seq<byte>, fiInd': nat, sn': nat, out: Outcome, srbs: seq<seq<byte>>)
    requires n < |lens| && Sum(lens) < |s| && AllWellFormed(Pdus(s, lens, n, |lens|)) && sn < 1024
    requires BlockMerged(s, lens, n, lastLcid, Start(lens, n), fiInd, sn, d, fiInd', sn', out) && out.Merged?
    requires Concat(srbs) == s[..Start(lens, n)] && out.sduTotal <= |d|
    ensures var sdus := Announced(srbs, BlockPdu(s, lens, n, fiInd, sn'));
      d[..out.sduTotal] == Concat(sdus) && out.sduLength == |sdus[|srbs|]|
  {
    hide FieldsOf, Pdus, AllWellFormed, BlockPdu, Start, MergedFi, LastFi, Sum, Concat;
    var m := BlockPdu(s, lens, n, fiInd, sn');
    var last := m + Zeros(|Concat(srbs)|);
    DlGather.ConcatNext(srbs, last);
    assert d[..out.sduTotal] == Concat(srbs) + last;
  }

  /**
   What the UE reads with padding at the end: the signalling SDUs, and the merged PDU with as many zeros
   behind its last field as there are signalling octets; so it is exact if and only if there are none.
   */
  lemma UeGetsSignalling(srbs: seq<seq<byte>>, lcids: seq<nat>, m: seq<byte>, ta: nat, fill: nat)
    requires WellFormed(m) && ValidSdus(Lengths(Announced(srbs, m)), lcids)
    ensures var sdus := Announced(srbs, m); var subs := Elements(255, ta, None, 0, Lengths(sdus), lcids);
      && AllValid(subs)
      && var r := ReadPdu(BlockOctets(subs, true, ControlElements(ta, None), sdus, fill));
      && r.Some? && r.value.sdus == sdus && r.value.sdus[..|srbs|] == srbs && Channels(r.value) == lcids
      && var u := Parse(m).value; var k := |u.fields| - 1;
      && Parse(sdus[|srbs|]) == Some(Umd(u.fi, u.sn, u.fields[..k] + [u.fields[k] + Zeros(|Concat(srbs)|)]))
      && (Parse(sdus[|srbs|]) == Parse(m) <==> Concat(srbs) == [])
  {
    hide Parse, ReadPdu, BlockOctets, Elements, Concat, ControlElements, Channels;
    var sdus, z := Announced(srbs, m), Zeros(|Concat(srbs)|);
    HeaderRoundTrip(sdus, lcids, 255, ta, None, 0, 1, fill);
    ParseExtended(m, z);
    ExtendedDiffers(Parse(m).value, z);
  }
}
