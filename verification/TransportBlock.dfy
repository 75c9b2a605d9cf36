/**
 From the gathered block to the octets on air (eNB_scheduler_dlsch.c): padding is chosen from
 the header size counted while gathering, although the merge has meanwhile replaced several
 SDUs by one. Does everything fit, and what does the UE read?
 */
module TransportBlock {
  import opened Bytes
  import opened RlcUmd
  import opened RlcHeader
  import DlGather
  import opened MacHeader
  import opened MacPdu

  /** `header_length_total` once the last subheader has lost its length field. */
  function CountedHeader(b: DlGather.Block): (r: int) {
    if b.headerTotal == 0 then 0 else b.headerTotal - b.headerLast + 1
  }

  /** Octets of the subheaders of these SDUs when the last one has no length field. */
  function OpenSize(lens: seq<nat>): (r: nat) {
    if lens == [] then 0 else SumSub(lens[..|lens| - 1]) + 1
  }

  function SumSub(lens: seq<nat>): (r: nat) {
    if lens == [] then 0 else SumSub(lens[..|lens| - 1]) + DlGather.SubheaderLen(lens[|lens| - 1])
  }

  datatype Padding = Padding(short: nat, post: nat)

  /** At most two spare octets become padding subheaders in front, more become padding at the end. */
  function ChoosePadding(spare: nat): (r: Padding) {
    if spare <= 2 then Padding(spare, 0) else Padding(0, 1)
  }

  function TaLen(ta: nat): (r: nat) {
    if ta != 31 then 2 else 0
  }

  /** The elements of the block: padding in front, timing advance, SDUs. */
  function BlockElements(ta: nat, padding: Padding, lens: seq<nat>, lcids: seq<nat>): (r: seq<Sub>)
    requires |lens| == |lcids|
  {
    Elements(255, ta, None, padding.short, lens, lcids)
  }

  /** The offset that the header routine returns. */
  function Offset(ta: nat, padding: Padding, lens: seq<nat>, lcids: seq<nat>): (r: nat)
    requires ValidSdus(lens, lcids)
    requires padding.post > 0 || BlockElements(ta, padding, lens, lcids) != []
  {
    |Printed(BlockElements(ta, padding, lens, lcids), padding.post > 0)| + |ControlElements(ta, None)|
  }

  // ----- sizes

  lemma {:induction false} ChainedSize(front: seq<Sub>, lens: seq<nat>, lcids: seq<nat>)
    requires AllValid(front) && (forall i :: 0 <= i < |front| ==> front[i].Fixed?) && ValidSdus(lens, lcids)
    ensures AllValid(front + SduSubs(lens, lcids))
    ensures |Chained(front + SduSubs(lens, lcids))| == |front| + SumSub(lens)
    decreases |lens|
  {
    var subs := front + SduSubs(lens, lcids);
    if lens == [] {
      assert subs == front;
      FixedSize(front);
    } else {
      var n := |lens| - 1;
      assert subs[..|subs| - 1] == front + SduSubs(lens[..n], lcids[..n]);
      ChainedSize(front, lens[..n], lcids[..n]);
    }
  }

  lemma {:induction false} FixedSize(subs: seq<Sub>)
    requires AllValid(subs) && forall i :: 0 <= i < |subs| ==> subs[i].Fixed?
    ensures |Chained(subs)| == |subs|
  {
    if subs != [] { FixedSize(subs[..|subs| - 1]); }
  }

  lemma FrontSize(ta: nat, short: nat)
    requires short <= 2
    ensures var front := Front(255, ta, None, short);
      |front| == short + TaLen(ta) / 2 && |ControlElements(ta, None)| == TaLen(ta) / 2
      && forall i :: 0 <= i < |front| ==> front[i].Fixed?
  {
  }

  /** The offset in both forms. */
  lemma OffsetIs(ta: nat, padding: Padding, lens: seq<nat>, lcids: seq<nat>)
    requires ValidSdus(lens, lcids) && padding.short <= 2
    requires padding.post > 0 || BlockElements(ta, padding, lens, lcids) != []
    ensures Offset(ta, padding, lens, lcids) ==
      padding.short + TaLen(ta) +
      (if padding.post > 0 then SumSub(lens) + 1 else if lens == [] then 0 else OpenSize(lens))
  {
    hide Chained, SumSub, Front;
    var front := Front(255, ta, None, padding.short);
    FrontSize(ta, padding.short);
    var subs := front + SduSubs(lens, lcids);
    if padding.post > 0 {
      ChainedSize(front, lens, lcids);
    } else if lens == [] {
      assert subs == front;
      FixedSize(front[..|front| - 1]);
    } else {
      var n := |lens| - 1;
      assert subs[..|subs| - 1] == front + SduSubs(lens[..n], lcids[..n]);
      ChainedSize(front, lens[..n], lcids[..n]);
    }
  }

  /**
   The block fits, whatever its SDUs, as long as the counted header is no smaller than the one
   printed; without final padding exactly the difference of the two stays unused.
   */
  lemma BlockFits(tbs: nat, hdr: nat, ta: nat, lens: seq<nat>, lcids: seq<nat>)
    requires ValidSdus(lens, lcids) && OpenSize(lens) <= hdr
    requires hdr + Sum(lens) + TaLen(ta) <= tbs
    requires lens != [] || ta != 31
    ensures var padding := ChoosePadding(tbs - hdr - Sum(lens) - TaLen(ta));
      && (padding.post > 0 || BlockElements(ta, padding, lens, lcids) != [])
      && Offset(ta, padding, lens, lcids) + Sum(lens) <= tbs
      && (padding.post == 0 ==> tbs - Offset(ta, padding, lens, lcids) - Sum(lens) == hdr - OpenSize(lens))
  {
    hide Printed, Sum, Offset;
    var padding := ChoosePadding(tbs - hdr - Sum(lens) - TaLen(ta));
    var subs := BlockElements(ta, padding, lens, lcids);
    if lens != [] { assert subs[|subs| - 1] == SduSubs(lens, lcids)[|lens| - 1]; }
    OffsetIs(ta, padding, lens, lcids);
  }

  // ----- the counted header

  lemma {:induction false} SumSubIs(pdus: seq<seq<byte>>)
    ensures SumSub(Lengths(pdus)) == Sum(DlGather.Subheaders(pdus))
  {
    if pdus != [] {
      var n := |pdus| - 1;
      assert Lengths(pdus)[..n] == Lengths(pdus[..n]);
      assert DlGather.Subheaders(pdus)[..n] == DlGather.Subheaders(pdus[..n]);
      SumSubIs(pdus[..n]);
    }
  }

  lemma {:induction false} SumSubAtLeast(lens: seq<nat>)
    ensures SumSub(lens) >= 2 * |lens|
  {
    if lens != [] { SumSubAtLeast(lens[..|lens| - 1]); }
  }

  /**
   The header counted while gathering is the open header of the SDUs gathered, and it is one octet only
   for one SDU.
   */
  lemma CountedIsOpen(b: DlGather.Block)
    requires DlGather.Consistent(b)
    ensures CountedHeader(b) == OpenSize(Lengths(b.pdus))
    ensures CountedHeader(b) == 1 <==> |b.pdus| == 1
    ensures CountedHeader(b) == 0 <==> b.pdus == []
    ensures CountedHeader(b) >= 2 * |b.pdus| - 1
  {
    SumSubIs(b.pdus);
    var lens := Lengths(b.pdus);
    SumSubAtLeast(lens);
    if b.pdus != [] { SumSubAtLeast(lens[..|lens| - 1]); }
  }

  /** What was gathered within its offers needs no more than the transport block it was gathered for. */
  lemma GatheredNeed(tbs: nat, taLen: nat, b: DlGather.Block)
    requires DlGather.Fits(tbs, taLen, b) && DlGather.Consistent(b)
    ensures taLen + CountedHeader(b) + b.SduTotal() <= tbs
  {
    CountedIsOpen(b);
  }

  // ----- what the UE reads in a merged block

  lemma {:induction false} ChainExtended(p: seq<byte>, z: seq<byte>, k: nat)
    requires Chain(p, k).Some?
    ensures Chain(p + z, k) == Chain(p, k)
    decreases |p| - k
  {
    NibbleFrame(p + z, p, 3 * k);
    NibbleFrame(p + z, p, 3 * k + 1);
    NibbleFrame(p + z, p, 3 * k + 2);
    assert Eli(p + z, k) == Eli(p, k);
    if Eli(p, k) >= 2048 {
      ChainExtended(p, z, k + 1);
    }
  }

  lemma {:induction false} SplitExtended(data: seq<byte>, z: seq<byte>, lis: seq<nat>)
    requires Split(data, lis).Some?
    ensures var f := Split(data, lis).value; var n := |f| - 1;
      Split(data + z, lis) == Some(f[..n] + [f[n] + z])
    decreases |lis|
  {
    var f := Split(data, lis).value;
    if lis == [] {
      assert f[..0] + [f[0] + z] == [data + z];
    } else {
      var rest := Split(data[lis[0]..], lis[1..]).value;
      SplitExtended(data[lis[0]..], z, lis[1..]);
      assert (data + z)[lis[0]..] == data[lis[0]..] + z;
      assert (data + z)[..lis[0]] == data[..lis[0]];
      assert f == [data[..lis[0]]] + rest;
      var last := |rest| - 1;
      assert f[..|f| - 1] == [data[..lis[0]]] + rest[..last] && f[|f| - 1] == rest[last];
      assert [data[..lis[0]]] + (rest[..last] + [rest[last] + z]) == f[..|f| - 1] + [f[|f| - 1] + z];
    }
  }

  /** Octets behind a UMD PDU become part of its last data field. */
  lemma ParseExtended(p: seq<byte>, z: seq<byte>)
    requires WellFormed(p)
    ensures var u := Parse(p).value; var n := |u.fields| - 1;
      Parse(p + z) == Some(Umd(u.fi, u.sn, u.fields[..n] + [u.fields[n] + z]))
  {
    hide Split;
    var lis := Lis(p).value;
    if FirstE(p) { ChainExtended(p, z, 0); }
    hide Chain;
    assert Lis(p + z) == Some(lis);
    SplitExtended(p[HeaderLen(|lis|)..], z, lis);
    assert (p + z)[HeaderLen(|lis|)..] == p[HeaderLen(|lis|)..] + z;
  }

  /** The octets of a block whose only SDU is the merged PDU m. */
  function OnAir(tbs: nat, hdr: nat, ta: nat, m: seq<byte>): (r: seq<byte>)
    requires |m| < 32768 && 1 <= hdr && hdr + |m| + TaLen(ta) <= tbs
    ensures |r| == tbs
  {
    MergedBlockFits(tbs, hdr, ta, |m|);
    var padding := ChoosePadding(tbs - hdr - |m| - TaLen(ta));
    var subs := BlockElements(ta, padding, [|m|], [3]);
    assert AllValid(subs);
    NoMore(m);
    BlockOctets(subs, padding.post > 0, ControlElements(ta, None), [m], tbs - Offset(ta, padding, [|m|], [3]) - |m|)
  }

  lemma MergedBlockFits(tbs: nat, hdr: nat, ta: nat, len: nat)
    requires len < 32768 && 1 <= hdr && hdr + len + TaLen(ta) <= tbs
    ensures ValidSdus([len], [3])
    ensures var padding := ChoosePadding(tbs - hdr - len - TaLen(ta));
      && AllValid(BlockElements(ta, padding, [len], [3])) && BlockElements(ta, padding, [len], [3]) != []
      && Offset(ta, padding, [len], [3]) + len <= tbs
      && (padding.post == 0 ==> tbs - Offset(ta, padding, [len], [3]) - len == hdr - 1)
  {
    hide Offset, Front;
    var one := [len];
    assert one[..0] == [];
    assert Sum(one) == len && OpenSize(one) == 1;
    BlockFits(tbs, hdr, ta, one, [3]);
  }

  /** Zero octets that end up behind the merged PDU as part of its SDU. */
  function FillBehind(tbs: nat, hdr: nat, ta: nat, len: nat): (r: nat)
    requires 1 <= hdr
  {
    if tbs - hdr - len - TaLen(ta) > 2 then 0 else hdr - 1
  }

  /**
   Whatever the merged PDU is, the UE finds one SDU: the merged PDU, followed by one zero octet for each
   octet the gathered header was longer than one unless there is padding at the end. It is on logical
   channel 3.
   */
  lemma UeTakes(tbs: nat, hdr: nat, ta: nat, m: seq<byte>)
    requires |m| < 32768 && 1 <= hdr && hdr + |m| + TaLen(ta) <= tbs
    ensures ReadPdu(OnAir(tbs, hdr, ta, m)).Some?
    ensures var r := ReadPdu(OnAir(tbs, hdr, ta, m)).value;
      r.sdus == [m + Zeros(FillBehind(tbs, hdr, ta, |m|))] && Channels(r) == [3]
  {
    hide ReadPdu, Offset, BlockOctets, Channels;
    MergedBlockFits(tbs, hdr, ta, |m|);
    var padding := ChoosePadding(tbs - hdr - |m| - TaLen(ta));
    var fill := tbs - Offset(ta, padding, [|m|], [3]) - |m|;
    var sdus := [m];
    assert Lengths(sdus) == [|m|];
    HeaderRoundTrip(sdus, [3], 255, ta, None, padding.short, padding.post, fill);
    FrontCes(255, ta, None, padding.short);
    var front := Front(255, ta, None, padding.short);
    if padding.post > 0 {
      assert m + Zeros(0) == m;
    } else {
      OpenReadsBack(front, ControlElements(ta, None), sdus, [3], fill);
      assert sdus[..0] + [sdus[0] + Zeros(fill)] == [m + Zeros(hdr - 1)];
    }
  }

  /**
   A merged PDU that can be read gives its FI, SN and fields; the last field is exact if and only if
   there is padding at the end or only one PDU was gathered.
   */
  lemma UeReads(tbs: nat, hdr: nat, ta: nat, m: seq<byte>)
    requires |m| < 32768 && 1 <= hdr && hdr + |m| + TaLen(ta) <= tbs && WellFormed(m)
    ensures ReadPdu(OnAir(tbs, hdr, ta, m)).Some?
    ensures var sdus := ReadPdu(OnAir(tbs, hdr, ta, m)).value.sdus; var spare := tbs - hdr - |m| - TaLen(ta);
      && |sdus| == 1
      && (Parse(sdus[0]) == Parse(m) <==> spare > 2 || hdr == 1)
      && (spare <= 2 ==>
            var u := Parse(m).value; var n := |u.fields| - 1;
            Parse(sdus[0]) == Some(Umd(u.fi, u.sn, u.fields[..n] + [u.fields[n] + Zeros(hdr - 1)])))
  {
    hide Parse, ReadPdu, OnAir;
    UeTakes(tbs, hdr, ta, m);
    var z := Zeros(FillBehind(tbs, hdr, ta, |m|));
    ParseExtended(m, z);
    ExtendedDiffers(Parse(m).value, z);
  }

  lemma ExtendedDiffers(u: Umd, z: seq<byte>)
    requires u.fields != []
    ensures var n := |u.fields| - 1;
      Umd(u.fi, u.sn, u.fields[..n] + [u.fields[n] + z]) == u <==> z == []
  {
    var n := |u.fields| - 1;
    var f := u.fields[..n] + [u.fields[n] + z];
    if z == [] {
      assert u.fields[n] + z == u.fields[n];
      assert f == u.fields;
    } else {
      assert |f[n]| > |u.fields[n]|;
    }
  }

  /** The octets of a block that carries a timing advance and no SDU. */
  function OnAirTaOnly(tbs: nat, ta: nat): (r: seq<byte>)
    requires ta != 31 && TaLen(ta) <= tbs
    ensures |r| == tbs
  {
    TaOnlyFits(tbs, ta);
    var padding := ChoosePadding(tbs - TaLen(ta));
    BlockOctets(BlockElements(ta, padding, [], []), padding.post > 0, ControlElements(ta, None), [],
                tbs - Offset(ta, padding, [], []))
  }

  lemma TaOnlyFits(tbs: nat, ta: nat)
    requires ta != 31 && TaLen(ta) <= tbs
    ensures ValidSdus([], [])
    ensures var padding := ChoosePadding(tbs - TaLen(ta));
      && AllValid(BlockElements(ta, padding, [], [])) && BlockElements(ta, padding, [], []) != []
      && Offset(ta, padding, [], []) <= tbs
  {
    hide Offset, Front;
    BlockFits(tbs, 0, ta, [], []);
    var padding := ChoosePadding(tbs - TaLen(ta));
    var subs := BlockElements(ta, padding, [], []);
    assert subs == Front(255, ta, None, padding.short);
    TaInFront(ta, padding.short);
  }

  lemma TaInFront(ta: nat, short: nat)
    requires ta != 31
    ensures Front(255, ta, None, short) != []
  {
  }

  /** The UE gets the timing advance of such a block, and no SDU. */
  lemma UeReadsTa(tbs: nat, ta: nat)
    requires ta < 64 && ta != 31 && TaLen(ta) <= tbs
    ensures ReadPdu(OnAirTaOnly(tbs, ta)).Some?
    ensures var r := ReadPdu(OnAirTaOnly(tbs, ta)).value;
      r.ces == [ta] && r.sdus == [] && Fixed(29) in r.subs + [Fixed(r.last)]
  {
    hide ReadPdu, BlockOctets, Offset;
    TaOnlyFits(tbs, ta);
    var padding := ChoosePadding(tbs - TaLen(ta));
    assert Lengths([]) == [];
    HeaderRoundTrip([], [], 255, ta, None, padding.short, padding.post, tbs - Offset(ta, padding, [], []));
    var subs := Elements(255, ta, None, padding.short, [], []);
    assert subs == Front(255, ta, None, padding.short);
    assert subs[|subs| - 1] == Fixed(TIMING_ADV_CMD);
  }
}
