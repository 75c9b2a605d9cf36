/** A whole DL-SCH MAC PDU as the UE takes it apart: subheaders, control elements, SDUs, padding. */
module MacPdu {
  import opened Bytes
  import opened MacHeader

  datatype Received = Received(subs: seq<Sub>, last: nat, ces: seq<byte>, sdus: seq<seq<byte>>, padding: seq<byte>)

  /** Lengths announced for SDUs. */
  function SduLens(subs: seq<Sub>): (r: seq<nat>) {
    if subs == [] then []
    else SduLens(subs[..|subs| - 1]) + (match subs[|subs| - 1] case Fixed(_) => [] case Sdu(_, len) => [len])
  }

  /** Logical channels of the SDUs with a length. */
  function SduChannels(subs: seq<Sub>): (r: seq<nat>) {
    if subs == [] then []
    else SduChannels(subs[..|subs| - 1]) + (match subs[|subs| - 1] case Fixed(_) => [] case Sdu(lcid, _) => [lcid])
  }

  /** Octets announced for control elements. */
  function CesLen(subs: seq<Sub>): (r: nat) {
    if subs == [] then 0 else CesLen(subs[..|subs| - 1]) + CeLen(subs[|subs| - 1].lcid)
  }

  datatype Cut = Cut(sdus: seq<seq<byte>>, rest: seq<byte>)

  function TakeSdus(body: seq<byte>, lens: seq<nat>): (r: Option<Cut>)
    decreases |lens|
  {
    if lens == [] then Some(Cut([], body))
    else if lens[0] > |body| then None
    else
      match TakeSdus(body[lens[0]..], lens[1..])
      case None => None
      case Some(c) => Some(Cut([body[..lens[0]]] + c.sdus, c.rest))
  }

  /** The last SDU, if its subheader has no length, runs to the end of the PDU. */
  function ReadPdu(b: seq<byte>): (r: Option<Received>) {
    match ReadSubheaders(b)
    case None => None
    case Some(h) =>
      var ceLen := CesLen(h.subs) + CeLen(h.last);
      if h.size + ceLen > |b| then None
      else
        match TakeSdus(b[h.size + ceLen..], SduLens(h.subs))
        case None => None
        case Some(c) =>
          var ces := b[h.size..h.size + ceLen];
          if h.last < 28 then Some(Received(h.subs, h.last, ces, c.sdus + [c.rest], []))
          else Some(Received(h.subs, h.last, ces, c.sdus, c.rest))
  }

  /** Logical channels of all SDUs of a PDU. */
  function Channels(r: Received): (c: seq<nat>) {
    SduChannels(r.subs) + (if r.last < 28 then [r.last] else [])
  }

  /** The control elements of a PDU with the LCIDs that announce them, in order. */
  function ControlsOf(lcids: seq<nat>, ces: seq<byte>): (r: seq<(nat, seq<byte>)>)
    decreases |lcids|
  {
    if lcids == [] || CeLen(lcids[0]) > |ces| then []
    else
      var n := CeLen(lcids[0]);
      (if n == 0 then [] else [(lcids[0], ces[..n])]) + ControlsOf(lcids[1..], ces[n..])
  }

  /** LCIDs of all subheaders. */
  function AllLcids(subs: seq<Sub>, last: nat): (r: seq<nat>)
    ensures |r| == |subs| + 1
  {
    seq(|subs|, i requires 0 <= i < |subs| => subs[i].lcid) + [last]
  }

  lemma {:induction false} TakeConcat(sdus: seq<seq<byte>>, rest: seq<byte>)
    ensures TakeSdus(Concat(sdus) + rest, Lengths(sdus)) == Some(Cut(sdus, rest))
    decreases |sdus|
  {
    hide Concat, TakeSdus;
    if sdus == [] {
      TakeNone(rest);
    } else {
      var lens, behind := Lengths(sdus), Concat(sdus[1..]) + rest;
      TakeConcat(sdus[1..], rest);
      assert lens[1..] == Lengths(sdus[1..]);
      TakeOne(sdus[0], behind, lens, Cut(sdus[1..], rest));
      ConcatFirst(sdus);
      assert Concat(sdus) + rest == sdus[0] + behind;
      assert [sdus[0]] + sdus[1..] == sdus;
    }
  }

  lemma TakeNone(rest: seq<byte>)
    ensures TakeSdus(Concat([]) + rest, Lengths([])) == Some(Cut([], rest))
  {
    assert Concat([]) + rest == rest;
  }

  lemma TakeOne(x: seq<byte>, behind: seq<byte>, lens: seq<nat>, c: Cut)
    requires lens != [] && lens[0] == |x| && TakeSdus(behind, lens[1..]) == Some(c)
    ensures TakeSdus(x + behind, lens) == Some(Cut([x] + c.sdus, c.rest))
  {
    assert (x + behind)[lens[0]..] == behind && (x + behind)[..lens[0]] == x;
  }

  // ----- what the elements of the header announce

  lemma {:induction false} FixedCarryNoSdu(subs: seq<Sub>)
    requires forall i :: 0 <= i < |subs| ==> subs[i].Fixed?
    ensures SduLens(subs) == []
  {
    if subs != [] { FixedCarryNoSdu(subs[..|subs| - 1]); }
  }

  lemma {:induction false} SduLensOf(front: seq<Sub>, lens: seq<nat>, lcids: seq<nat>)
    requires |lens| == |lcids|
    requires forall i :: 0 <= i < |front| ==> front[i].Fixed?
    ensures SduLens(front + SduSubs(lens, lcids)) == lens
    decreases |lens|
  {
    var subs := front + SduSubs(lens, lcids);
    if lens == [] {
      assert subs == front;
      FixedCarryNoSdu(front);
    } else {
      var n := |lens| - 1;
      assert subs[..|subs| - 1] == front + SduSubs(lens[..n], lcids[..n]);
      SduLensOf(front, lens[..n], lcids[..n]);
      assert lens[..n] + [lens[n]] == lens;
    }
  }

  lemma {:induction false} NoChannel(subs: seq<Sub>)
    requires forall i :: 0 <= i < |subs| ==> subs[i].Fixed?
    ensures SduChannels(subs) == []
  {
    if subs != [] { NoChannel(subs[..|subs| - 1]); }
  }

  lemma {:induction false} ChannelsOf(front: seq<Sub>, lens: seq<nat>, lcids: seq<nat>)
    requires |lens| == |lcids|
    requires forall i :: 0 <= i < |front| ==> front[i].Fixed?
    ensures SduChannels(front + SduSubs(lens, lcids)) == lcids
    decreases |lens|
  {
    var subs := front + SduSubs(lens, lcids);
    if lens == [] {
      assert subs == front;
      NoChannel(front);
    } else {
      var n := |lens| - 1;
      assert subs[..|subs| - 1] == front + SduSubs(lens[..n], lcids[..n]);
      ChannelsOf(front, lens[..n], lcids[..n]);
      assert lcids[..n] + [lcids[n]] == lcids;
    }
  }

  lemma {:induction false} CesLenOf(front: seq<Sub>, lens: seq<nat>, lcids: seq<nat>)
    requires |lens| == |lcids| && (forall i :: 0 <= i < |lcids| ==> lcids[i] < UE_CONT_RES)
    ensures CesLen(front + SduSubs(lens, lcids)) == CesLen(front)
    decreases |lens|
  {
    var subs := front + SduSubs(lens, lcids);
    if lens == [] {
      assert subs == front;
    } else {
      var n := |lens| - 1;
      assert subs[..|subs| - 1] == front + SduSubs(lens[..n], lcids[..n]);
      CesLenOf(front, lens[..n], lcids[..n]);
    }
  }

  lemma {:induction false} CesLenAppend(a: seq<Sub>, b: seq<Sub>)
    ensures CesLen(a + b) == CesLen(a) + CesLen(b)
    decreases |b|
  {
    if b == [] {
      assert a + b == a;
    } else {
      assert (a + b)[..|a + b| - 1] == a + b[..|b| - 1];
      CesLenAppend(a, b[..|b| - 1]);
    }
  }

  lemma CesLenOne(lcid: nat)
    ensures CesLen([Fixed(lcid)]) == CeLen(lcid)
  {
    var one := [Fixed(lcid)];
    assert one[..0] == [];
  }

  lemma NoCes()
    ensures CesLen([]) == 0
  {
  }

  /** The control elements are as long as their subheaders announce. */
  lemma FrontCes(drx: nat, ta: nat, contRes: Option<seq<byte>>, shortPadding: nat)
    requires contRes.Some? ==> |contRes.value| == 6
    ensures CesLen(Front(drx, ta, contRes, shortPadding)) == |ControlElements(ta, contRes)|
    ensures var front := Front(drx, ta, contRes, shortPadding); forall i :: 0 <= i < |front| ==> front[i].Fixed?
  {
    hide CesLen;
    var pad := ShortPadding(shortPadding);
    var sleep := if drx != 255 then [Fixed(DRX_CMD)] else [];
    var adv := if ta != 31 then [Fixed(TIMING_ADV_CMD)] else [];
    var res := if contRes.Some? then [Fixed(UE_CONT_RES)] else [];
    CesLenAppend(pad + sleep + adv, res);
    CesLenAppend(pad + sleep, adv);
    CesLenAppend(pad, sleep);
    CesLenOne(PADDING);
    CesLenOne(DRX_CMD);
    CesLenOne(TIMING_ADV_CMD);
    CesLenOne(UE_CONT_RES);
    if shortPadding == 2 {
      assert pad == [Fixed(PADDING)] + [Fixed(PADDING)];
      CesLenAppend([Fixed(PADDING)], [Fixed(PADDING)]);
    }
    NoCes();
  }

  // ----- a printed block read back

  /** Header, control elements, SDUs and zeros up to the transport block size. */
  function BlockOctets(subs: seq<Sub>, post: bool, ces: seq<byte>, sdus: seq<seq<byte>>, fill: nat): (r: seq<byte>)
    requires AllValid(subs) && (post || subs != [])
  {
    Printed(subs, post) + ces + Concat(sdus) + Zeros(fill)
  }

  lemma ReadBody(b: seq<byte>, head: seq<byte>, ces: seq<byte>, body: seq<byte>)
    requires b == head + ces + body
    ensures b == head + (ces + body) && b[|head|..|head| + |ces|] == ces && b[|head| + |ces|..] == body
  {
  }

  /** With a padding subheader at the end every SDU comes back exactly, and the fill is padding. */
  lemma PaddedReadsBack(front: seq<Sub>, ces: seq<byte>, sdus: seq<seq<byte>>, lcids: seq<nat>, fill: nat)
    requires AllValid(front) && (forall i :: 0 <= i < |front| ==> front[i].Fixed?) && CesLen(front) == |ces|
    requires ValidSdus(Lengths(sdus), lcids)
    ensures var subs := front + SduSubs(Lengths(sdus), lcids);
      && AllValid(subs)
      && ReadPdu(BlockOctets(subs, true, ces, sdus, fill)) == Some(Received(subs, PADDING, ces, sdus, Zeros(fill)))
  {
    hide Printed, ReadSubheaders, SduLens, CesLen, TakeSdus, Concat;
    var lens := Lengths(sdus);
    var subs := front + SduSubs(lens, lcids);
    var body := Concat(sdus) + Zeros(fill);
    var head := Printed(subs, true);
    var b := BlockOctets(subs, true, ces, sdus, fill);
    assert b == head + ces + body;
    ReadBody(b, head, ces, body);
    PrintedReadsBack(subs, true, ces + body);
    SduLensOf(front, lens, lcids);
    CesLenOf(front, lens, lcids);
    TakeConcat(sdus, Zeros(fill));
  }

  /** Without one the last SDU has no length: it comes back with whatever fills the block behind it. */
  lemma OpenReadsBack(front: seq<Sub>, ces: seq<byte>, sdus: seq<seq<byte>>, lcids: seq<nat>, fill: nat)
    requires AllValid(front) && (forall i :: 0 <= i < |front| ==> front[i].Fixed?) && CesLen(front) == |ces|
    requires ValidSdus(Lengths(sdus), lcids) && sdus != []
    ensures var subs := front + SduSubs(Lengths(sdus), lcids); var n := |sdus| - 1;
      && AllValid(subs)
      && ReadPdu(BlockOctets(subs, false, ces, sdus, fill)) ==
         Some(Received(subs[..|subs| - 1], lcids[n], ces, sdus[..n] + [sdus[n] + Zeros(fill)], []))
  {
    hide Printed, ReadSubheaders, SduLens, CesLen, TakeSdus, Concat;
    var lens, n := Lengths(sdus), |sdus| - 1;
    var subs := front + SduSubs(lens, lcids);
    assert subs[..|subs| - 1] == front + SduSubs(lens[..n], lcids[..n]);
    assert subs[|subs| - 1] == Sdu(lcids[n], lens[n]);
    assert sdus == sdus[..n] + [sdus[n]];
    ConcatAppend(sdus[..n], [sdus[n]]);
    ConcatFirst([sdus[n]]);
    var rest := sdus[n] + Zeros(fill);
    var body := Concat(sdus[..n]) + rest;
    var head := Printed(subs, false);
    var b := BlockOctets(subs, false, ces, sdus, fill);
    assert Concat([sdus[n]]) == sdus[n] by { NoMore(sdus[n]); }
    assert Concat(sdus) + Zeros(fill) == body;
    assert b == head + ces + body;
    ReadBody(b, head, ces, body);
    PrintedReadsBack(subs, false, ces + body);
    SduLensOf(front, lens[..n], lcids[..n]);
    CesLenOf(front, lens[..n], lcids[..n]);
    assert lens[..n] == Lengths(sdus[..n]);
    TakeConcat(sdus[..n], rest);
  }

  lemma NoMore(s: seq<byte>)
    ensures Concat([s]) == s
  {
    var one := [s];
    assert one[..0] == [];
    assert Concat(one) == [] + s;
  }

  lemma CesLenLast(front: seq<Sub>)
    requires front != []
    ensures CesLen(front) == CesLen(front[..|front| - 1]) + CeLen(front[|front| - 1].lcid)
  {
  }

  lemma AllButLast(front: seq<Sub>)
    requires front != [] && AllValid(front)
    ensures AllValid(front[..|front| - 1]) && ValidSub(front[|front| - 1])
  {
  }

  /** Control elements alone: nothing behind them is an SDU. */
  lemma FixedReadsBack(front: seq<Sub>, ces: seq<byte>, fill: nat)
    requires AllValid(front) && (forall i :: 0 <= i < |front| ==> front[i].Fixed?) && CesLen(front) == |ces|
    requires front != []
    ensures var n := |front| - 1;
      ReadPdu(BlockOctets(front, false, ces, [], fill)) ==
          Some(Received(front[..n], front[n].lcid, ces, [], Zeros(fill)))
  {
    hide Printed, ReadSubheaders, SduLens, TakeSdus, Concat, CesLen, AllValid, ReadPdu;
    var n := |front| - 1;
    CesLenLast(front);
    AllButLast(front);
    NothingCut();
    var head, body := Printed(front, false), Zeros(fill);
    var b := BlockOctets(front, false, ces, [], fill);
    assert b == head + ces + body;
    hide BlockOctets;
    ReadBody(b, head, ces, body);
    PrintedReadsBack(front, false, ces + body);
    FixedCarryNoSdu(front[..n]);
    ReadNoSdu(b, Subheaders(front[..n], front[n].lcid, |head|), ces, body);
  }

  lemma NothingCut()
    ensures Concat([]) == [] && Lengths([]) == []
  {
  }

  lemma ReadNoSdu(b: seq<byte>, h: Subheaders, ces: seq<byte>, body: seq<byte>)
    requires ReadSubheaders(b) == Some(h) && CesLen(h.subs) + CeLen(h.last) == |ces| && SduLens(h.subs) == []
    requires h.last >= UE_CONT_RES && |b| == h.size + |ces| + |body|
    requires b[h.size..h.size + |ces|] == ces && b[h.size + |ces|..] == body
    ensures ReadPdu(b) == Some(Received(h.subs, h.last, ces, [], body))
  {
    hide ReadSubheaders, CesLen, SduLens;
  }

  /**
   Whatever the header routine is asked to print, a UE gets back: the elements in order, the
   control element octets, and the SDUs. Only the last SDU of a block without final padding
   depends on the fill: it is exact if and only if there is none.
   */
  lemma HeaderRoundTrip(sdus: seq<seq<byte>>, lcids: seq<nat>, drx: nat, ta: nat, contRes: Option<seq<byte>>,
                        shortPadding: nat, postPadding: nat, fill: nat)
    requires ValidSdus(Lengths(sdus), lcids) && (contRes.Some? ==> |contRes.value| == 6)
    requires Elements(drx, ta, contRes, shortPadding, Lengths(sdus), lcids) != [] || postPadding > 0
    ensures var subs := Elements(drx, ta, contRes, shortPadding, Lengths(sdus), lcids);
      && AllValid(subs)
      && var b := BlockOctets(subs, postPadding > 0, ControlElements(ta, contRes), sdus, fill);
      && ReadPdu(b).Some?
      && var r := ReadPdu(b).value;
      && r.ces == ControlElements(ta, contRes)
      && r.subs == (if postPadding > 0 then subs else subs[..|subs| - 1])
      && r.last == (if postPadding > 0 then 31 else subs[|subs| - 1].lcid)
      && |r.sdus| == |sdus| && Channels(r) == lcids
      && (r.sdus == sdus <==> postPadding > 0 || fill == 0 || sdus == [])
      && r.padding == (if postPadding > 0 || sdus == [] then Zeros(fill) else [])
  {
    hide ReadPdu, BlockOctets, Front, ControlElements, CesLen, SduChannels;
    FrontCes(drx, ta, contRes, shortPadding);
    var front, ces := Front(drx, ta, contRes, shortPadding), ControlElements(ta, contRes);
    var n := |lcids| - 1;
    if postPadding > 0 {
      PaddedReadsBack(front, ces, sdus, lcids, fill);
      ChannelsOf(front, Lengths(sdus), lcids);
    } else if sdus == [] {
      assert front + SduSubs([], []) == front;
      FixedReadsBack(front, ces, fill);
      NoChannel(front[..|front| - 1]);
    } else {
      OpenReadsBack(front, ces, sdus, lcids, fill);
      OpenChannels(front, Lengths(sdus), lcids);
      LastSduExact(sdus, fill);
    }
  }

  /** Without the last subheader, which then has no length. */
  lemma OpenChannels(front: seq<Sub>, lens: seq<nat>, lcids: seq<nat>)
    requires |lens| == |lcids| > 0 && forall i :: 0 <= i < |front| ==> front[i].Fixed?
    ensures var subs := front + SduSubs(lens, lcids); var n := |lcids| - 1;
      SduChannels(subs[..|subs| - 1]) + [lcids[n]] == lcids
  {
    var n := |lcids| - 1;
    var subs := front + SduSubs(lens, lcids);
    assert subs[..|subs| - 1] == front + SduSubs(lens[..n], lcids[..n]);
    ChannelsOf(front, lens[..n], lcids[..n]);
  }

  lemma {:induction false} NoControls(lcids: seq<nat>, ces: seq<byte>)
    requires forall i :: 0 <= i < |lcids| ==> CeLen(lcids[i]) == 0
    ensures ControlsOf(lcids, ces) == []
    decreases |lcids|
  {
    if lcids != [] {
      assert ces[0..] == ces;
      NoControls(lcids[1..], ces);
    }
  }

  lemma {:induction false} SkipControls(quiet: seq<nat>, lcids: seq<nat>, ces: seq<byte>)
    requires forall i :: 0 <= i < |quiet| ==> CeLen(quiet[i]) == 0
    ensures ControlsOf(quiet + lcids, ces) == ControlsOf(lcids, ces)
    decreases |quiet|
  {
    if quiet == [] {
      assert quiet + lcids == lcids;
    } else {
      assert (quiet + lcids)[1..] == quiet[1..] + lcids && ces[0..] == ces;
      SkipControls(quiet[1..], lcids, ces);
    }
  }

  lemma OneControl(lcid: nat, lcids: seq<nat>, x: seq<byte>, ces: seq<byte>)
    requires CeLen(lcid) == |x| > 0
    ensures ControlsOf([lcid] + lcids, x + ces) == [(lcid, x)] + ControlsOf(lcids, ces)
  {
    assert ([lcid] + lcids)[1..] == lcids && (x + ces)[..|x|] == x && (x + ces)[|x|..] == ces;
  }

  /**
   What the UE makes of the control elements behind any header: the timing advance if one was given, then
   the contention resolution identity if one was given, and nothing else.
   */
  lemma ControlsReadBack(ta: nat, contRes: Option<seq<byte>>, before: seq<nat>, behind: seq<nat>)
    requires contRes.Some? ==> |contRes.value| == 6
    requires ta == 31 || ta < 64
    requires forall i :: 0 <= i < |before| ==> before[i] in {30, 31}
    requires forall i :: 0 <= i < |behind| ==> behind[i] < 28 || behind[i] == 31
    ensures var lcids := before + (if ta != 31 then [29] else []) + (if contRes.Some? then [28] else []) + behind;
      ControlsOf(lcids, ControlElements(ta, contRes)) ==
      (if ta != 31 then [(29, [ta])] else []) + (if contRes.Some? then [(28, contRes.value)] else [])
  {
    hide ControlsOf;
    var x: seq<byte>, y := if ta != 31 then [ta] else [], if contRes.Some? then contRes.value else [];
    var a, b := if ta != 31 then [29] else [], (if contRes.Some? then [28] else []) + behind;
    assert ControlElements(ta, contRes) == x + (y + []);
    assert before + a + (if contRes.Some? then [28] else []) + behind == before + (a + b);
    SkipControls(before, a + b, x + (y + []));
    if ta != 31 {
      OneControl(29, b, x, y + []);
    } else {
      assert a + b == b && x + (y + []) == y + [];
    }
    NoControls(behind, []);
    if contRes.Some? {
      OneControl(28, behind, y, []);
    } else {
      assert [] + behind == behind && y + [] == [];
    }
  }

  /** The LCIDs in front of the SDUs are those of the standard. */
  lemma FrontLcids(drx: nat, ta: nat, contRes: Option<seq<byte>>, shortPadding: nat)
    ensures var front := Front(drx, ta, contRes, shortPadding);
      front == (if shortPadding == 1 then [Fixed(31)] else if shortPadding == 2 then [Fixed(31), Fixed(31)] else []) +
               (if drx != 255 then [Fixed(30)] else []) + (if ta != 31 then [Fixed(29)] else []) +
               (if contRes.Some? then [Fixed(28)] else [])
  {
  }

  lemma LastSduExact(sdus: seq<seq<byte>>, fill: nat)
    requires sdus != []
    ensures var n := |sdus| - 1; sdus[..n] + [sdus[n] + Zeros(fill)] == sdus <==> fill == 0
  {
    var n := |sdus| - 1;
    var got := sdus[..n] + [sdus[n] + Zeros(fill)];
    if fill == 0 {
      assert sdus[n] + Zeros(0) == sdus[n];
      assert got == sdus;
    } else {
      assert |got[n]| > |sdus[n]|;
    }
  }
}
