/**
 The DL-SCH MAC header (section 6.1.2 of 3GPP TS 36.321): how a UE reads it, and the routine
 that prints it with a pointer through a buffer, setting the E bit of a subheader only when
 the next one is written.
 */
module MacHeader {
  import opened Bytes

  const PADDING: nat := 31
  const DRX_CMD: nat := 30
  const TIMING_ADV_CMD: nat := 29
  const UE_CONT_RES: nat := 28

  /** A subheader without length field, or one of an SDU. */
  datatype Sub = Fixed(lcid: nat) | Sdu(lcid: nat, len: nat)

  predicate ValidSub(s: Sub) {
    match s
    case Fixed(lcid) => UE_CONT_RES <= lcid <= PADDING
    case Sdu(lcid, len) => lcid < UE_CONT_RES && len < 32768
  }

  // ----- reading (the UE's side uses the numbers of the standard, not the constants of the source)

  /** Subheaders up to the first with E clear, which never has a length field. */
  datatype Subheaders = Subheaders(subs: seq<Sub>, last: nat, size: nat)

  function ReadSubheaders(b: seq<byte>): (r: Option<Subheaders>)
    ensures r.Some? ==> 0 < r.value.size <= |b|
  {
    if b == [] then None
    else
      var lcid := b[0] % 32;
      if b[0] / 32 % 2 == 0 then Some(Subheaders([], lcid, 1))
      else if lcid >= 28 then More(Fixed(lcid), 1, ReadSubheaders(b[1..]))
      else if |b| < 2 then None
      else if b[1] < 128 then More(Sdu(lcid, b[1]), 2, ReadSubheaders(b[2..]))
      else if |b| < 3 then None
      else
        var high: int := b[1];
        More(Sdu(lcid, high % 128 * 256 + b[2]), 3, ReadSubheaders(b[3..]))
  }

  function More(s: Sub, size: nat, rest: Option<Subheaders>): (r: Option<Subheaders>) {
    match rest
    case None => None
    case Some(h) => Some(Subheaders([s] + h.subs, h.last, size + h.size))
  }

  /**
   Octets of control elements announced by a subheader, by the LCIDs of table 6.2.1-1 of TS 36.321: 28
   contention resolution identity, 29 timing advance command.
   */
  function CeLen(lcid: nat): (r: nat) {
    if lcid == 29 then 1 else if lcid == 28 then 6 else 0
  }

  // ----- writing

  function SubOctets(s: Sub, e: bool): (r: seq<byte>)
    requires ValidSub(s)
    ensures |r| == SubSize(s)
  {
    var first := (if e then 32 else 0) + s.lcid;
    match s
    case Fixed(_) => [first]
    case Sdu(_, len) => if len < 128 then [first, len] else [first, 128 + len / 256, len % 256]
  }

  function SubSize(s: Sub): (r: nat) {
    match s
    case Fixed(_) => 1
    case Sdu(_, len) => if len < 128 then 2 else 3
  }

  predicate AllValid(subs: seq<Sub>) {
    forall i :: 0 <= i < |subs| ==> ValidSub(subs[i])
  }

  /** Subheaders that are followed by another one. */
  function Chained(subs: seq<Sub>): (r: seq<byte>)
    requires AllValid(subs)
  {
    if subs == [] then [] else Chained(subs[..|subs| - 1]) + SubOctets(subs[|subs| - 1], true)
  }

  /** All subheaders: closed by a padding subheader, or by the first octet of the last one. */
  function Printed(subs: seq<Sub>, postPadding: bool): (r: seq<byte>)
    requires AllValid(subs) && (postPadding || subs != [])
  {
    if postPadding then Chained(subs) + [PADDING]
    else Chained(subs[..|subs| - 1]) + [subs[|subs| - 1].lcid]
  }

  // ----- round trip

  lemma ReadOne(s: Sub, rest: seq<byte>)
    requires ValidSub(s)
    ensures ReadSubheaders(SubOctets(s, true) + rest) == More(s, SubSize(s), ReadSubheaders(rest))
  {
    var b := SubOctets(s, true) + rest;
    assert b[0] % 32 == s.lcid && b[0] / 32 % 2 == 1;
    assert b[SubSize(s)..] == rest;
    if s.Sdu? && s.len >= 128 {
      var high: int := b[1];
      assert high == 128 + s.len / 256 && s.len / 256 < 128;
      assert high % 128 * 256 + b[2] == s.len;
    }
  }

  lemma {:induction false} ReadChained(subs: seq<Sub>, rest: seq<byte>)
    requires AllValid(subs) && ReadSubheaders(rest).Some?
    ensures ReadSubheaders(Chained(subs) + rest) ==
      var h := ReadSubheaders(rest).value;
      Some(Subheaders(subs + h.subs, h.last, |Chained(subs)| + h.size))
    decreases |subs|
  {
    hide ReadSubheaders;
    if subs == [] {
      assert Chained(subs) + rest == rest;
      assert subs + ReadSubheaders(rest).value.subs == ReadSubheaders(rest).value.subs;
    } else {
      var n := |subs| - 1;
      var more := SubOctets(subs[n], true) + rest;
      ReadOne(subs[n], rest);
      ReadChained(subs[..n], more);
      assert Chained(subs) + rest == Chained(subs[..n]) + more;
      assert subs[..n] + [subs[n]] == subs;
      var h := ReadSubheaders(rest).value;
      assert subs[..n] + ([subs[n]] + h.subs) == subs + h.subs;
    }
  }

  lemma ReadClosing(lcid: nat, rest: seq<byte>)
    requires lcid < 32
    ensures ReadSubheaders([lcid] + rest) == Some(Subheaders([], lcid, 1))
  {
    var b: seq<byte> := [lcid] + rest;
    assert b[0] == lcid;
  }

  /**
   A UE reads back every element with its LCID and length, in order, whatever follows, and stops
   exactly at the end of the subheaders. Without padding at the end the last element keeps its
   LCID only.
   */
  lemma PrintedReadsBack(subs: seq<Sub>, postPadding: bool, rest: seq<byte>)
    requires AllValid(subs) && (postPadding || subs != [])
    ensures ReadSubheaders(Printed(subs, postPadding) + rest) ==
      Some(if postPadding then Subheaders(subs, PADDING, |Printed(subs, postPadding)|)
           else Subheaders(subs[..|subs| - 1], subs[|subs| - 1].lcid, |Printed(subs, postPadding)|))
  {
    hide ReadSubheaders;
    var chained := if postPadding then subs else subs[..|subs| - 1];
    var lcid: byte := if postPadding then PADDING else subs[|subs| - 1].lcid;
    ReadClosing(lcid, rest);
    ReadChained(chained, [lcid] + rest);
    assert Printed(subs, postPadding) + rest == Chained(chained) + ([lcid] + rest);
    assert chained + [] == chained;
  }

  // ----- the routine

  /** The elements in the order they are written. */
  function Elements(drx: nat, ta: nat, contRes: Option<seq<byte>>, shortPadding: nat, lens: seq<nat>,
      lcids: seq<nat>): (r: seq<Sub>)
    requires |lens| == |lcids|
  {
    Front(drx, ta, contRes, shortPadding) + SduSubs(lens, lcids)
  }

  function ShortPadding(n: nat): (r: seq<Sub>) {
    if n == 1 then [Fixed(PADDING)] else if n == 2 then [Fixed(PADDING), Fixed(PADDING)] else []
  }

  function Front(drx: nat, ta: nat, contRes: Option<seq<byte>>, shortPadding: nat): (r: seq<Sub>)
    ensures AllValid(r)
  {
    ShortPadding(shortPadding) +
    (if drx != 255 then [Fixed(DRX_CMD)] else []) +
    (if ta != 31 then [Fixed(TIMING_ADV_CMD)] else []) +
    (if contRes.Some? then [Fixed(UE_CONT_RES)] else [])
  }

  function SduSubs(lens: seq<nat>, lcids: seq<nat>): (r: seq<Sub>)
    requires |lens| == |lcids|
    ensures |r| == |lens|
  {
    seq(|lens|, i requires 0 <= i < |lens| => Sdu(lcids[i], lens[i]))
  }

  /** Control elements follow the subheaders in the same order. */
  function ControlElements(ta: nat, contRes: Option<seq<byte>>): (r: seq<byte>) {
    (if ta != 31 then [ta % 64] else []) + (if contRes.Some? then contRes.value else [])
  }

  /** The octets at `p` are the last subheader written, everything before is chained. */
  ghost predicate Written(buf: seq<byte>, p: nat, lastSize: nat, subs: seq<Sub>) {
    && AllValid(subs)
    && (subs == [] ==> p == 0 && lastSize == 0)
    && (subs != [] ==>
          var n := |subs| - 1;
          && p == |Chained(subs[..n])| && lastSize == SubSize(subs[n])
          && p + lastSize <= |buf|
          && buf[..p + lastSize] == Chained(subs[..n]) + SubOctets(subs[n], false))
  }

  /** With the E bit of its last subheader set, the header is chained. */
  lemma FirstOfLast(s: seq<byte>, p: nat, lastSize: nat, subs: seq<Sub>)
    requires Written(s, p, lastSize, subs) && subs != []
    ensures p < |s| && s[p] < 32 && p + lastSize <= |s|
    ensures s[p := s[p] + 32][..p + lastSize] == Chained(subs)
  {
    var n := |subs| - 1;
    var last, g := SubOctets(subs[n], false), s[p := s[p] + 32];
    assert s[..p + lastSize][p] == last[0];
    assert s[..p + lastSize][p..] == last;
    assert g[p..p + lastSize] == SubOctets(subs[n], true);
    assert g[..p] == s[..p + lastSize][..p];
    assert g[..p + lastSize] == g[..p] + g[p..p + lastSize];
  }

  /** Sets the E bit of the last subheader and moves behind it, unless there is none yet. */
  method Advance(buf: array<byte>, p: nat, lastSize: nat, first: bool, ghost subs: seq<Sub>) returns (q: nat)
    requires Written(buf[..], p, lastSize, subs) && (first <==> subs == []) && p < buf.Length
    modifies buf
    ensures q == |Chained(subs)| == p + lastSize <= buf.Length
    ensures buf[..q] == Chained(subs)
  {
    if first {
      q := p;
    } else {
      ghost var s := buf[..];
      FirstOfLast(s, p, lastSize, subs);
      var octet := buf[p];
      buf[p] := if octet / 32 % 2 == 0 then octet + 32 else octet;
      q := p + lastSize;
      assert buf[..] == s[p := s[p] + 32];
    }
  }

  lemma Wrote(buf: seq<byte>, p: nat, subs: seq<Sub>, s: Sub)
    requires AllValid(subs) && ValidSub(s) && p == |Chained(subs)| && p + SubSize(s) <= |buf|
    requires buf[..p] == Chained(subs) && buf[p..p + SubSize(s)] == SubOctets(s, false)
    ensures Written(buf, p, SubSize(s), subs + [s])
  {
    hide Chained, SubOctets;
    assert (subs + [s])[..|subs|] == subs;
    assert buf[..p + SubSize(s)] == buf[..p] + buf[p..p + SubSize(s)];
  }

  method PutFixed(buf: array<byte>, p: nat, lastSize: nat, first: bool, lcid: nat, ghost subs: seq<Sub>)
      returns (q: nat)
    requires Written(buf[..], p, lastSize, subs) && (first <==> subs == [])
    requires UE_CONT_RES <= lcid <= PADDING && |Chained(subs)| < buf.Length && p < buf.Length
    modifies buf
    ensures Written(buf[..], q, 1, subs + [Fixed(lcid)])
    ensures q == |Chained(subs)|
  {
    q := Advance(buf, p, lastSize, first, subs);
    buf[q] := lcid;
    assert buf[..q] == Chained(subs);
    Wrote(buf[..], q, subs, Fixed(lcid));
  }

  /** The long form is a four-octet structure whose last octet is cleared and later overwritten. */
  method PutSdu(buf: array<byte>, p: nat, lastSize: nat, first: bool, lcid: nat, len: nat, ghost subs: seq<Sub>)
    returns (q: nat, size: nat)
    requires Written(buf[..], p, lastSize, subs) && (first <==> subs == [])
    requires ValidSub(Sdu(lcid, len)) && |Chained(subs)| + 4 <= buf.Length && p < buf.Length
    modifies buf
    ensures size == SubSize(Sdu(lcid, len)) && Written(buf[..], q, size, subs + [Sdu(lcid, len)])
    ensures q == |Chained(subs)|
  {
    q := Advance(buf, p, lastSize, first, subs);
    if len < 128 {
      buf[q] := lcid;
      buf[q + 1] := len;
      size := 2;
    } else {
      buf[q] := lcid;
      buf[q + 1] := 128 + len / 256 % 128;
      buf[q + 2] := len % 256;
      buf[q + 3] := 0;
      size := 3;
    }
    assert buf[..q] == Chained(subs);
    Wrote(buf[..], q, subs, Sdu(lcid, len));
  }

  predicate ValidSdus(lens: seq<nat>, lcids: seq<nat>) {
    |lens| == |lcids| && forall i :: 0 <= i < |lens| ==> ValidSub(Sdu(lcids[i], lens[i]))
  }

  lemma {:induction false} ChainedBound(subs: seq<Sub>)
    requires AllValid(subs)
    ensures |Chained(subs)| <= 3 * |subs|
  {
    if subs != [] { ChainedBound(subs[..|subs| - 1]); }
  }

  /** The subheaders without length: padding, DRX, timing advance and contention resolution. */
  method PutFront(buf: array<byte>, drx: nat, ta: nat, contRes: Option<seq<byte>>, shortPadding: nat)
    returns (p: nat, lastSize: nat, first: bool)
    requires buf.Length >= 20
    modifies buf
    ensures var subs := Front(drx, ta, contRes, shortPadding);
      && Written(buf[..], p, lastSize, subs) && (first <==> subs == []) && p <= 15
      && (subs == [] ==> buf[..] == old(buf[..]))
  {
    hide Written, Chained;
    p, lastSize, first := PutShortPadding(buf, shortPadding);
    ghost var subs := ShortPadding(shortPadding);
    if drx != 255 {
      ChainedBound(subs);
      p := PutFixed(buf, p, lastSize, first, DRX_CMD, subs);
      lastSize, first := 1, false;
      subs := subs + [Fixed(DRX_CMD)];
    }
    if ta != 31 {
      ChainedBound(subs);
      p := PutFixed(buf, p, lastSize, first, TIMING_ADV_CMD, subs);
      lastSize, first := 1, false;
      subs := subs + [Fixed(TIMING_ADV_CMD)];
    }
    if contRes.Some? {
      ChainedBound(subs);
      p := PutFixed(buf, p, lastSize, first, UE_CONT_RES, subs);
      lastSize, first := 1, false;
      subs := subs + [Fixed(UE_CONT_RES)];
    }
    assert subs == Front(drx, ta, contRes, shortPadding);
  }

  method PutShortPadding(buf: array<byte>, shortPadding: nat) returns (p: nat, lastSize: nat, first: bool)
    requires buf.Length >= 20
    modifies buf
    ensures var subs := ShortPadding(shortPadding);
      && Written(buf[..], p, lastSize, subs) && (first <==> subs == []) && p <= 3
      && (subs == [] ==> buf[..] == old(buf[..]))
  {
    hide Written, Chained;
    p, lastSize, first := 0, 0, true;
    NothingWritten(buf[..]);
    ghost var one := [Fixed(PADDING)];
    assert [] + one == one && one + [Fixed(PADDING)] == [Fixed(PADDING), Fixed(PADDING)];
    if shortPadding == 1 || shortPadding == 2 {
      p := PutFixed(buf, p, lastSize, first, PADDING, []);
      lastSize, first := 1, false;
    }
    if shortPadding == 2 {
      ChainedBound(one);
      p := PutFixed(buf, p, lastSize, first, PADDING, one);
    }
  }

  lemma NothingWritten(buf: seq<byte>)
    ensures Written(buf, 0, 0, []) && Chained([]) == []
  {
  }

  lemma SduSubsNext(front: seq<Sub>, lens: seq<nat>, lcids: seq<nat>, i: nat)
    requires |lens| == |lcids| && i < |lens|
    ensures front + SduSubs(lens[..i + 1], lcids[..i + 1]) ==
        front + SduSubs(lens[..i], lcids[..i]) + [Sdu(lcids[i], lens[i])]
  {
    assert SduSubs(lens[..i + 1], lcids[..i + 1]) == SduSubs(lens[..i], lcids[..i]) + [Sdu(lcids[i], lens[i])];
  }

  /** The subheaders of all SDUs behind the ones written so far. */
  method PutSdus(buf: array<byte>, start: nat, startSize: nat, noneYet: bool, lens: seq<nat>, lcids: seq<nat>,
      ghost front: seq<Sub>)
    returns (p: nat, lastSize: nat)
    requires Written(buf[..], start, startSize, front) && (noneYet <==> front == []) && start < buf.Length
    requires ValidSdus(lens, lcids) && 3 * |front| + 3 * |lens| + 4 <= buf.Length
    modifies buf
    ensures Written(buf[..], p, lastSize, front + SduSubs(lens, lcids))
    ensures p <= 3 * |front| + 3 * |lens| || p == start
    ensures front == [] && lens == [] ==> buf[..] == old(buf[..])
  {
    hide Chained;
    p, lastSize := start, startSize;
    var first := noneYet;
    ghost var subs := front;
    for i := 0 to |lens|
      invariant subs == front + SduSubs(lens[..i], lcids[..i])
      invariant Written(buf[..], p, lastSize, subs) && (first <==> subs == [])
      invariant p < buf.Length && (p == start || p <= 3 * |front| + 3 * |lens|)
      invariant i == 0 ==> buf[..] == old(buf[..])
    {
      hide Written, SduSubs;
      ChainedBound(subs);
      p, lastSize := PutSdu(buf, p, lastSize, first, lcids[i], lens[i], subs);
      first := false;
      subs := subs + [Sdu(lcids[i], lens[i])];
      SduSubsNext(front, lens, lcids, i);
    }
    assert lens[..|lens|] == lens && lcids[..|lcids|] == lcids;
  }

  /** Either a padding subheader closes the list, or the last one loses its length field. */
  method Close(buf: array<byte>, p: nat, lastSize: nat, postPadding: nat, ghost subs: seq<Sub>) returns (q: nat)
    requires Written(buf[..], p, lastSize, subs) && p + 4 <= buf.Length
    modifies buf
    ensures p < q <= p + 4
    ensures postPadding > 0 || subs != [] ==> buf[..q] == Printed(subs, postPadding > 0)
    ensures postPadding == 0 ==> q == p + 1 && buf[..] == old(buf[..])
  {
    EmptyIsFirst(buf[..], p, lastSize, subs);
    if postPadding > 0 {
      q := Advance(buf, p, lastSize, lastSize == 0, subs);
      buf[q] := PADDING;
      q := q + 1;
    } else {
      q := p + 1;
      assert subs != [] ==> buf[..][p] == SubOctets(subs[|subs| - 1], false)[0];
    }
  }

  lemma EmptyIsFirst(buf: seq<byte>, p: nat, lastSize: nat, subs: seq<Sub>)
    requires Written(buf, p, lastSize, subs)
    ensures subs == [] <==> lastSize == 0
  {
  }

  /**
   The whole routine. If it has something to write, the returned offset is exactly the end of the
   subheaders and control elements; if not, the offset is one octet that nobody wrote.
   */
  method GenerateHeader(buf: array<byte>, lens: seq<nat>, lcids: seq<nat>, drx: nat, ta: nat,
                        contRes: Option<seq<byte>>, shortPadding: nat, postPadding: nat)
    returns (offset: nat)
    requires ValidSdus(lens, lcids) && buf.Length >= 3 * |lens| + 40 && (ta == 31 || ta < 64)
    requires contRes.Some? ==> |contRes.value| == 6
    modifies buf
    ensures offset <= buf.Length
    ensures var subs := Elements(drx, ta, contRes, shortPadding, lens, lcids);
      && AllValid(subs)
      && (subs != [] || postPadding > 0 ==>
            buf[..offset] == Printed(subs, postPadding > 0) + ControlElements(ta, contRes))
      && (subs == [] && postPadding == 0 ==> offset == 1 && buf[0] == old(buf[0]))
  {
    hide Printed, Chained, Front, ControlElements;
    FrontFacts(drx, ta, contRes, shortPadding);
    ghost var front := Front(drx, ta, contRes, shortPadding);
    ghost var subs := front + SduSubs(lens, lcids);
    var p, lastSize, first := PutFront(buf, drx, ta, contRes, shortPadding);
    p, lastSize := PutSdus(buf, p, lastSize, first, lens, lcids, front);
    offset := Close(buf, p, lastSize, postPadding, subs);
    var ces := ControlElements(ta, contRes);
    Put(buf, offset, ces);
    offset := offset + |ces|;
  }

  lemma FrontFacts(drx: nat, ta: nat, contRes: Option<seq<byte>>, shortPadding: nat)
    requires contRes.Some? ==> |contRes.value| == 6
    ensures |Front(drx, ta, contRes, shortPadding)| <= 5 && |ControlElements(ta, contRes)| <= 7
    ensures Front(drx, ta, contRes, shortPadding) == [] ==> ControlElements(ta, contRes) == []
  {
  }
}
