/**
 The in-place merge of a block's DTCH PDUs into one PDU (eNB_scheduler_dlsch.c): the
 scheduler walks the octets of every PDU with an E-bit loop that treats even and odd E/LI
 fields differently, repacks the lengths into `rlc_header`, gathers the data in a second
 buffer and copies header and data back.
 */
module RlcMerge {
  import opened Bytes
  import opened RlcUmd
  import opened RlcHeader
  import opened RlcMeaning

  /** Lowest logical channel that carries user data. */
  const DTCH: nat := 3

  /** The per-UE fields the merge updates; `sn` is a 10-bit counter. */
  class UeStats {
    var sn: nat
    var fiInd: nat

    constructor ()
      ensures sn == 0 && fiInd == 0
    {
      sn, fiInd := 0, 0;
    }
  }

  /** OutOfBounds: the source writes outside its 100-octet header buffer. */
  datatype Outcome = Merged(sduLength: nat, sduTotal: nat) | OutOfBounds

  // ----- the block as a list of PDUs

  lemma {:induction false} SumPrefix(lens: seq<nat>, i: nat)
    requires i <= |lens|
    ensures Sum(lens[..i]) <= Sum(lens)
    ensures i < |lens| ==> Sum(lens[..i + 1]) == Sum(lens[..i]) + lens[i]
  {
    assert lens == lens[..i] + lens[i..];
    SumAppend(lens[..i], lens[i..]);
    if i < |lens| { assert lens[..i + 1][..i] == lens[..i]; }
  }

  /** Start of the i-th MAC SDU in the buffer. */
  function Start(lens: seq<nat>, i: nat): (r: nat)
    requires i <= |lens|
    ensures r <= Sum(lens)
  {
    SumPrefix(lens, i);
    Sum(lens[..i])
  }

  function SduAt(buffer: seq<byte>, lens: seq<nat>, i: nat): (r: seq<byte>)
    requires i < |lens| && Sum(lens) <= |buffer|
    ensures |r| == lens[i]
  {
    SumPrefix(lens, i);
    SumPrefix(lens, i + 1);
    buffer[Start(lens, i)..Start(lens, i) + lens[i]]
  }

  /** The DTCH PDUs of the block with index in from..to. */
  function Pdus(buffer: seq<byte>, lens: seq<nat>, from: nat, to: nat): (r: seq<seq<byte>>)
    requires from <= to <= |lens| && Sum(lens) <= |buffer|
    ensures |r| == to - from
  {
    seq(to - from, j requires 0 <= j < to - from => SduAt(buffer, lens, from + j))
  }

  lemma PdusNext(buffer: seq<byte>, lens: seq<nat>, from: nat, i: nat)
    requires from <= i < |lens| && Sum(lens) <= |buffer|
    requires AllWellFormed(Pdus(buffer, lens, from, |lens|))
    ensures AllWellFormed(Pdus(buffer, lens, from, i)) && AllWellFormed(Pdus(buffer, lens, from, i + 1))
    ensures Readable(SduAt(buffer, lens, i))
    ensures FieldsOf(Pdus(buffer, lens, from, i + 1)) ==
            FieldsOf(Pdus(buffer, lens, from, i)) + FieldsOfOne(SduAt(buffer, lens, i))
  {
    hide Parse, SduAt, WellFormed, Readable, FieldsOf, FieldsOfOne;
    var all := Pdus(buffer, lens, from, |lens|);
    var before, upto := Pdus(buffer, lens, from, i), Pdus(buffer, lens, from, i + 1);
    assert before == all[..i - from] && upto == all[..i + 1 - from];
    assert all[i - from] == SduAt(buffer, lens, i);
    FieldsNext(all[..i - from], all[i - from]);
    assert upto == all[..i - from] + [all[i - from]];
  }

  lemma {:induction false} ConcatLength(fields: seq<seq<byte>>)
    ensures |Concat(fields)| == Sum(Lengths(fields))
  {
    if fields != [] {
      var n := |fields| - 1;
      ConcatLength(fields[..n]);
      assert Lengths(fields)[..n] == Lengths(fields[..n]);
    }
  }

  // ----- one E/LI entry

  method WriteLi(h: array<byte>, pos: nat, n: nat, len: nat) returns (ok: bool, next: nat)
    requires h.Length == HEADER_ROOM && n <= MAX_FIELDS && pos == HeaderPos(n)
    modifies h
    ensures ok <==> n < MAX_FIELDS
    ensures ok ==> h[..] == PutLi(old(h[..]), n, len) && next == HeaderPos(n + 1)
  {
    if pos + 1 >= h.Length {
      return false, pos;
    }
    if n % 2 == 0 {
      h[pos] := (128 + len / 16) % 256;
      h[pos + 1] := len % 16 * 16;
      next := pos + 1;
    } else {
      var octet: int := h[pos];
      h[pos] := (octet + 8 + len / 256) % 256;
      h[pos + 1] := len % 256;
      next := pos + 2;
    }
    ok := true;
  }

  /** The source's two-way reading of field k agrees with the 4-bit stream. */
  lemma FieldReading(p: seq<byte>, k: nat)
    requires HasEli(p, k)
    ensures var at := 2 + 3 * k / 2; var a: int := p[at]; var b: int := p[at + 1];
      && (k % 2 == 0 ==> Eli(p, k) == a * 16 + b / 16)
      && (k % 2 == 1 ==> Eli(p, k) == a % 16 * 256 + b)
  {
    var m := k / 2;
    if k % 2 == 0 {
      assert k == 2 * m;
      assert 3 * k / 2 == 3 * m && (3 * k + 1) / 2 == 3 * m && (3 * k + 2) / 2 == 3 * m + 1;
    } else {
      assert k == 2 * m + 1;
      assert 3 * k / 2 == 3 * m + 1 && (3 * k + 1) / 2 == 3 * m + 2 && (3 * k + 2) / 2 == 3 * m + 2;
    }
  }

  lemma Aligned(a: byte, b: byte)
    ensures var x: int := a; var v := x * 16 + b / 16;
      v % 2048 == x % 128 * 16 + b / 16 && (v >= 2048 <==> x / 128 == 1)
  {
    var x: int := a;
    assert x == 128 * (x / 128) + x % 128;
  }

  lemma HalfAligned(a: byte, b: byte)
    ensures var x: int := a; var v := x % 16 * 256 + b;
      v % 2048 == x % 8 * 256 + b && (v >= 2048 <==> x / 8 % 2 == 1)
  {
    var x: int := a;
    assert x % 16 == x / 8 % 2 * 8 + x % 8;
  }

  /** One turn of the E-bit loop: value and continuation bit of field k. */
  lemma FieldStep(p: seq<byte>, k: nat)
    requires Chain(p, k).Some?
    ensures HasEli(p, k)
    ensures var c := Chain(p, k).value;
      && c[0] == Eli(p, k) % 2048
      && (Eli(p, k) < 2048 <==> |c| == 1)
      && (|c| > 1 ==> Chain(p, k + 1) == Some(c[1..]))
  {
    hide Eli;
  }

  /** Field number num - 2 of the PDU at `position`, read in the even or the odd form. */
  method ReadField(dlsch: array<byte>, position: nat, before: nat, num: nat, ghost p: seq<byte>)
    returns (pduPos: nat, sLen: nat, e: bool)
    requires num >= 2 && position + |p| <= dlsch.Length && p == dlsch[position..position + |p|]
    requires HasEli(p, num - 2)
    requires before == if num == 2 then position else position + 2 + 3 * (num - 3) / 2
    ensures pduPos == position + 2 + 3 * (num - 2) / 2
    ensures sLen == Eli(p, num - 2) % 2048 && (e <==> Eli(p, num - 2) >= 2048)
  {
    hide Eli;
    FieldReading(p, num - 2);
    if num % 2 == 0 {
      assert 3 * (num - 2) / 2 == if num == 2 then 0 else 3 * (num - 3) / 2 + 2;
      pduPos := before + 2;
      var a: int, b: int := dlsch[pduPos], dlsch[pduPos + 1];
      Aligned(a, b);
      sLen := a % 128 * 16 + b / 16;
      e := a / 128 == 1;
    } else {
      assert 3 * (num - 2) / 2 == 3 * (num - 3) / 2 + 1;
      pduPos := before + 1;
      var a: int, b: int := dlsch[pduPos], dlsch[pduPos + 1];
      HalfAligned(a, b);
      sLen := a % 8 * 256 + b;
      e := a / 8 % 2 == 1;
    }
  }

  lemma NoneYet()
    ensures Sum([]) == 0
  {
  }

  lemma PutNext(lens: seq<nat>, len: nat)
    requires |lens| < MAX_FIELDS
    ensures PutAll(lens + [len]) == PutLi(PutAll(lens), |lens|, len)
  {
    assert (lens + [len])[..|lens|] == lens;
  }

  lemma SumNext(lens: seq<nat>, len: nat)
    ensures Sum(lens + [len]) == Sum(lens) + len
  {
    assert (lens + [len])[..|lens|] == lens;
  }

  /** The E-bit loop: repacks every length indicator of the PDU. */
  method CopyLis(dlsch: array<byte>, position: nat, header: array<byte>, headerPos: nat, total: nat,
                 ghost p: seq<byte>, ghost lens: seq<nat>)
    returns (ok: bool, headerPos': nat, total': nat, pduPos: nat, dataFieldSize: nat)
    requires position + |p| <= dlsch.Length && p == dlsch[position..position + |p|]
    requires |p| >= 2 && FirstE(p) && Lis(p).Some?
    requires header.Length == HEADER_ROOM && header != dlsch
    requires total == |lens| <= MAX_FIELDS && headerPos == HeaderPos(total) && header[..] == PutAll(lens)
    modifies header
    ensures var lis := Lis(p).value;
      && (ok <==> total + |lis| <= MAX_FIELDS)
      && (ok ==>
            && total' == total + |lis| && headerPos' == HeaderPos(total')
            && header[..] == PutAll(lens + lis)
            && pduPos == position + HeaderLen(|lis|) - 2 && dataFieldSize == Sum(lis))
  {
    hide Eli, HasEli, PutLi, PutAll, Chain, Sum;
    ghost var lis := Lis(p).value;
    NoneYet();
    var e, num := true, 1;
    pduPos, dataFieldSize, headerPos', total' := position, 0, headerPos, total;
    ok := true;
    assert lens + lis[..0] == lens;
    while e
      invariant 1 <= num <= |lis| + 1
      invariant e ==> num <= |lis| && Chain(p, num - 1) == Some(lis[num - 1..])
      invariant !e ==> num == |lis| + 1
      invariant pduPos == if num == 1 then position else position + 2 + 3 * (num - 2) / 2
      invariant dataFieldSize == Sum(lis[..num - 1])
      invariant ok && total' == total + num - 1 <= MAX_FIELDS && headerPos' == HeaderPos(total')
      invariant header[..] == PutAll(lens + lis[..num - 1])
      decreases |lis| + 1 - num
    {
      FieldStep(p, num - 1);
      num := num + 1;
      var sLen;
      pduPos, sLen, e := ReadField(dlsch, position, pduPos, num, p);
      dataFieldSize := dataFieldSize + sLen;
      ok, headerPos' := WriteLi(header, headerPos', total', sLen);
      if !ok {
        return;
      }
      total' := total' + 1;
      PutNext(lens + lis[..num - 2], sLen);
      assert lis[..num - 1] == lis[..num - 2] + [sLen];
      assert lens + lis[..num - 1] == lens + lis[..num - 2] + [sLen];
      SumNext(lis[..num - 2], sLen);
    }
    assert lis[..|lis|] == lis;
  }

  /** One PDU: its length indicators are repacked, its data is appended to the new buffer. */
  method CopyPdu(dlsch: array<byte>, position: nat, len: nat, header: array<byte>, headerPos: nat, total: nat,
                 data: array<byte>, bufferPos: nat, ghost lens: seq<nat>)
    returns (ok: bool, headerPos': nat, total': nat, bufferPos': nat)
    requires position + len <= dlsch.Length && WellFormed(dlsch[position..position + len])
    requires header.Length == HEADER_ROOM && header != data && header != dlsch && dlsch != data
    requires total == |lens| <= MAX_FIELDS && headerPos == HeaderPos(total) && header[..] == PutAll(lens)
    requires bufferPos + len <= data.Length
    modifies header, data
    ensures var fields := Parse(dlsch[position..position + len]).value.fields;
      && (ok <==> total + |fields| <= MAX_FIELDS)
      && (ok ==>
            && total' == total + |fields| && headerPos' == HeaderPos(total')
            && header[..] == PutAll(lens + Lengths(fields))
            && bufferPos' == bufferPos + |Concat(fields)| <= data.Length
            && data[..bufferPos'] == old(data[..bufferPos]) + Concat(fields))
  {
    hide PutLi, PutAll, Concat, Split, Chain, Sum;
    ghost var p := dlsch[position..position + len];
    ghost var fields, lis := Parse(p).value.fields, Lis(p).value;
    FieldLengths(p);
    var e := dlsch[position] / 4 % 2 == 1;
    var dataStart, sLen := position + 2, len - 2;
    headerPos', total', bufferPos' := headerPos, total, bufferPos;
    assert lens + [] == lens;
    NoneYet();
    if e {
      var pduPos, dataFieldSize;
      ok, headerPos', total', pduPos, dataFieldSize := CopyLis(dlsch, position, header, headerPos, total, p, lens);
      if !ok {
        return;
      }
      dataStart := pduPos + 2;
      sLen := len - (pduPos + 2 - position) - dataFieldSize;
    }
    assert Lengths(fields)[|lis|] == sLen;
    ok, headerPos' := WriteLi(header, headerPos', total', sLen);
    if !ok {
      return;
    }
    PutNext(lens + lis, sLen);
    assert lens + Lengths(fields) == lens + lis + [sLen];
    total' := total' + 1;
    Move(data, bufferPos, dlsch, dataStart, len - (dataStart - position));
    bufferPos' := bufferPos + len - (dataStart - position);
    assert dlsch[dataStart..position + len] == p[HeaderLen(|lis|)..];
  }

  /** The last data field is what the header and the length indicators leave over. */
  lemma FieldLengths(p: seq<byte>)
    requires WellFormed(p)
    ensures var fields := Parse(p).value.fields; var lis := Lis(p).value;
      && |p| >= 3 && |fields| == |lis| + 1
      && Lengths(fields) == lis + [|p| - HeaderLen(|lis|) - Sum(lis)]
      && p[HeaderLen(|lis|)..] == Concat(fields) && |p| == HeaderLen(|lis|) + |Concat(fields)|
  {
    var fields, lis := Parse(p).value.fields, Lis(p).value;
    ParsedSize(p);
    assert Split(p[HeaderLen(|lis|)..], lis) == Some(fields);
    hide Concat, Chain, Split, Lis;
    SplitSound(p[HeaderLen(|lis|)..], lis);
    ConcatLength(fields);
    var all := Lengths(fields);
    assert all[..|lis|] == lis;
    assert all == lis + [all[|lis|]];
  }

  // ----- the whole block

  /** Signalling SDUs come first in a gathered block, the first n of them. */
  predicate SrbsFirst(lcids: seq<nat>, n: nat) {
    && n <= |lcids|
    && (forall i :: 0 <= i < n ==> lcids[i] < DTCH)
    && (forall i :: n <= i < |lcids| ==> lcids[i] >= DTCH)
  }

  /** FI as the last turn of the loop reads it: from the octet where the last SDU starts. */
  function LastFi(buffer: seq<byte>, lens: seq<nat>): (r: nat)
    requires lens != [] && Sum(lens) < |buffer|
    ensures r < 4
  {
    Fi(buffer[Start(lens, |lens| - 1)..])
  }

  /** A block that continues a segmented SDU has the high FI bit set. */
  function MergedFi(fi: nat, fiInd: nat): (r: nat)
    requires fi < 4
    ensures r < 4
  {
    if fiInd != 0 then 2 + fi % 2 else fi
  }

  /** The signalling SDUs move to the new buffer unchanged. */
  method CopySrbs(dlsch: array<byte>, data: array<byte>, lens: seq<nat>, lcids: seq<nat>, ghost n: nat)
    returns (numSrb: nat, bufferPos: nat)
    requires |lens| == |lcids| && SrbsFirst(lcids, n) && Sum(lens) <= dlsch.Length == data.Length && dlsch != data
    modifies data
    ensures numSrb == n && bufferPos == Start(lens, n)
    ensures data[..bufferPos] == dlsch[..bufferPos]
  {
    numSrb, bufferPos := 0, 0;
    for i := 0 to |lens|
      invariant numSrb == if i <= n then i else n
      invariant bufferPos == Start(lens, numSrb)
      invariant data[..bufferPos] == dlsch[..bufferPos]
    {
      if lcids[i] < DTCH {
        SumPrefix(lens, i);
        SumPrefix(lens, i + 1);
        Move(data, bufferPos, dlsch, bufferPos, lens[i]);
        bufferPos := bufferPos + lens[i];
        numSrb := numSrb + 1;
      }
    }
  }

  lemma NoFields(buffer: seq<byte>, lens: seq<nat>, from: nat)
    requires from <= |lens| && Sum(lens) <= |buffer|
    ensures AllWellFormed(Pdus(buffer, lens, from, from)) && FieldsOf(Pdus(buffer, lens, from, from)) == []
    ensures Concat([]) == [] && PutAll(Lengths([])) == Zeros(HEADER_ROOM)
  {
  }

  lemma SduIsSlice(buffer: seq<byte>, lens: seq<nat>, i: nat)
    requires i < |lens| && Sum(lens) <= |buffer| && lens[i] > 0 && Readable(SduAt(buffer, lens, i))
    ensures var p := SduAt(buffer, lens, i);
      && Start(lens, i) + lens[i] <= |buffer|
      && p == buffer[Start(lens, i)..Start(lens, i) + lens[i]]
      && WellFormed(p) && FieldsOfOne(p) == Parse(p).value.fields && |Concat(FieldsOfOne(p))| <= lens[i]
  {
    hide Parse, Concat;
    SumPrefix(lens, i);
    SumPrefix(lens, i + 1);
    var p := SduAt(buffer, lens, i);
    assert p != [];
    ParseSound(p);
  }

  lemma EmptySdu(buffer: seq<byte>, lens: seq<nat>, i: nat)
    requires i < |lens| && Sum(lens) <= |buffer| && lens[i] == 0 && Readable(SduAt(buffer, lens, i))
    ensures FieldsOfOne(SduAt(buffer, lens, i)) == []
  {
    assert SduAt(buffer, lens, i) == [];
  }

  lemma MoreFields(fields: seq<seq<byte>>, p: seq<byte>)
    requires Readable(p)
    ensures var more := FieldsOfOne(p);
      && Concat(fields + more) == Concat(fields) + Concat(more)
      && Lengths(fields + more) == Lengths(fields) + Lengths(more)
  {
    hide FieldsOfOne, Concat;
    ConcatAppend(fields, FieldsOfOne(p));
  }

  /** A block never loses fields by going on. */
  lemma {:induction false} MoreLater(buffer: seq<byte>, lens: seq<nat>, from: nat, i: nat)
    requires from <= i <= |lens| && Sum(lens) <= |buffer|
    requires AllWellFormed(Pdus(buffer, lens, from, |lens|))
    ensures AllWellFormed(Pdus(buffer, lens, from, i))
    ensures |FieldsOf(Pdus(buffer, lens, from, i))| <= |FieldsOf(Pdus(buffer, lens, from, |lens|))|
    decreases |lens| - i
  {
    hide FieldsOf, Readable, FieldsOfOne;
    if i < |lens| {
      PdusNext(buffer, lens, from, i);
      MoreLater(buffer, lens, from, i + 1);
    }
  }

  /** One SDU of the block; an empty one adds nothing. */
  method CopyNext(dlsch: array<byte>, lens: seq<nat>, i: nat, position: nat, header: array<byte>, headerPos: nat,
      total: nat,
                  data: array<byte>, bufferPos: nat, ghost fields: seq<seq<byte>>)
    returns (ok: bool, headerPos': nat, total': nat, bufferPos': nat)
    requires i < |lens| && Sum(lens) + 2 <= dlsch.Length == data.Length && position == Start(lens, i)
    requires Readable(SduAt(dlsch[..], lens, i))
    requires header.Length == HEADER_ROOM && header != data && header != dlsch && dlsch != data
    requires total == |fields| <= MAX_FIELDS && headerPos == HeaderPos(total)
    requires header[..] == PutAll(Lengths(fields)) && bufferPos <= position
    modifies header, data
    ensures var more := FieldsOfOne(SduAt(dlsch[..], lens, i));
      && (ok <==> total + |more| <= MAX_FIELDS)
      && (ok ==>
            && total' == total + |more| && headerPos' == HeaderPos(total')
            && header[..] == PutAll(Lengths(fields + more))
            && bufferPos' == bufferPos + |Concat(more)| <= position + lens[i] <= data.Length
            && data[..bufferPos'] == old(data[..bufferPos]) + Concat(more))
  {
    hide Parse, PutAll, SduAt, Concat, WellFormed, FieldsOfOne, Readable;
    ghost var p := SduAt(dlsch[..], lens, i);
    SumPrefix(lens, i + 1);
    SumPrefix(lens, i);
    headerPos', total', bufferPos', ok := headerPos, total, bufferPos, true;
    if lens[i] == 0 {
      EmptySdu(dlsch[..], lens, i);
      NoData();
      assert fields + [] == fields;
    } else {
      SduIsSlice(dlsch[..], lens, i);
      MoreFields(fields, p);
      assert dlsch[position..position + lens[i]] == p;
      ok, headerPos', total', bufferPos' :=
        CopyPdu(dlsch, position, lens[i], header, headerPos, total, data, bufferPos, Lengths(fields));
    }
  }

  lemma NoData()
    ensures Concat([]) == []
  {
  }

  /** The loop over all DTCH PDUs of the block. */
  method CopyPdus(dlsch: array<byte>, lens: seq<nat>, numSrb: nat, header: array<byte>, data: array<byte>, srbLen: nat)
    returns (ok: bool, headerPos: nat, total: nat, bufferPos: nat, fi: nat)
    requires numSrb < |lens| && Sum(lens) + 2 <= dlsch.Length == data.Length && srbLen == Start(lens, numSrb)
    requires AllWellFormed(Pdus(dlsch[..], lens, numSrb, |lens|))
    requires header.Length == HEADER_ROOM && header[..] == Zeros(HEADER_ROOM)
    requires header != data && header != dlsch && dlsch != data
    modifies header, data
    ensures var fields := FieldsOf(Pdus(dlsch[..], lens, numSrb, |lens|));
      && (ok <==> |fields| <= MAX_FIELDS)
      && (ok ==>
            && total == |fields| && headerPos == HeaderPos(total) && header[..] == PutAll(Lengths(fields))
            && bufferPos == srbLen + |Concat(fields)| <= Sum(lens) && fi == LastFi(dlsch[..], lens)
            && data[..bufferPos] == old(data[..srbLen]) + Concat(fields))
  {
    hide PutAll, SduAt, Concat, FieldsOf, FieldsOfOne, Readable, Pdus, AllWellFormed;
    ghost var s := dlsch[..];
    ghost var fields: seq<seq<byte>> := [];
    headerPos, total, bufferPos, ok, fi := 2, 0, srbLen, true, 0;
    var position := srbLen;
    NoFields(s, lens, numSrb);
    for i := numSrb to |lens|
      invariant dlsch[..] == s
      invariant AllWellFormed(Pdus(s, lens, numSrb, i)) && fields == FieldsOf(Pdus(s, lens, numSrb, i))
      invariant ok && total == |fields| <= MAX_FIELDS && headerPos == HeaderPos(total)
      invariant header[..] == PutAll(Lengths(fields))
      invariant position == Start(lens, i)
      invariant bufferPos == srbLen + |Concat(fields)| <= position
      invariant data[..bufferPos] == old(data[..srbLen]) + Concat(fields)
      invariant i > numSrb ==> fi == Fi(s[Start(lens, i - 1)..])
    {
      PdusNext(s, lens, numSrb, i);
      SumPrefix(lens, i);
      ghost var more := FieldsOfOne(SduAt(s, lens, i));
      fi := dlsch[position] / 8 % 4;
      ok, headerPos, total, bufferPos :=
        CopyNext(dlsch, lens, i, position, header, headerPos, total, data, bufferPos, fields);
      if !ok {
        MoreLater(s, lens, numSrb, i + 1);
        return;
      }
      ConcatAppend(fields, more);
      fields := fields + more;
      position := position + lens[i];
    }
    assert lens[..|lens|] == lens;
  }

  /** Takes the last E/LI entry out; with no entry at all the source writes before the buffer. */
  method TrimHeader(h: array<byte>, pos: nat, n: nat) returns (ok: bool, next: nat)
    requires h.Length == HEADER_ROOM && n <= MAX_FIELDS && pos == HeaderPos(n)
    modifies h
    ensures ok <==> n > 0
    ensures ok ==> h[..] == DropLast(old(h[..]), n) && next == HeaderLen(n - 1)
  {
    ok, next := true, pos - 1;
    if n % 2 == 0 {
      if pos < 3 {
        return false, pos;
      }
      h[pos - 3] := h[pos - 3] % 128;
      h[pos - 2] := h[pos - 2] / 16 * 16;
      h[pos - 1] := 0;
    } else {
      if n > 1 {
        h[pos - 3] := ClearBit3(h[pos - 3]);
      }
      h[pos - 1] := 0;
      h[pos] := 0;
    }
  }

  /** Header in front of the data, both back into the block's buffer after the signalling SDUs. */
  method Assemble(dlsch: array<byte>, data: array<byte>, header: array<byte>, srbLen: nat, headerPos: nat,
      bufferPos: nat)
    requires srbLen <= bufferPos && bufferPos + headerPos <= data.Length == dlsch.Length && headerPos <= header.Length
    requires dlsch != data && header != data && header != dlsch
    modifies dlsch, data
    ensures dlsch[..] == old(data[..srbLen]) + old(header[..headerPos]) + old(data[srbLen..bufferPos]) +
                         Zeros(dlsch.Length - bufferPos - headerPos)
  {
    PrependHeader(data, header, srbLen, headerPos, bufferPos);
    Replace(dlsch, data, bufferPos + headerPos);
  }

  /** The data makes room for the header. */
  method PrependHeader(data: array<byte>, header: array<byte>, srbLen: nat, headerPos: nat, bufferPos: nat)
    requires srbLen <= bufferPos && bufferPos + headerPos <= data.Length && headerPos <= header.Length && header != data
    modifies data
    ensures data[..][..bufferPos + headerPos] ==
            old(data[..])[..srbLen] + old(header[..])[..headerPos] + old(data[..])[srbLen..bufferPos]
  {
    hide Overwritten;
    Move(data, srbLen + headerPos, data, srbLen, bufferPos - srbLen);
    Move(data, srbLen, header, 0, headerPos);
    Inserted(old(data[..]), old(header[..])[..headerPos], srbLen, bufferPos);
  }

  /** Shifting a[i..j] right by |h| and writing h at i inserts h. */
  lemma Inserted(a: seq<byte>, h: seq<byte>, i: nat, j: nat)
    requires i <= j && j + |h| <= |a|
    ensures Overwritten(Overwritten(a, i + |h|, a[i..j]), i, h)[..j + |h|] == a[..i] + h + a[i..j]
  {
    var b := Overwritten(a, i + |h|, a[i..j]);
    assert b[i + |h|..] == a[i..j] + a[j + |h|..];
    assert b[..i] == a[..i];
  }

  /** The buffer is cleared and takes the first n octets of the other one. */
  method Replace(dlsch: array<byte>, data: array<byte>, n: nat)
    requires n <= data.Length == dlsch.Length && dlsch != data
    modifies dlsch
    ensures dlsch[..] == data[..n] + Zeros(dlsch.Length - n)
  {
    forall i | 0 <= i < dlsch.Length {
      dlsch[i] := 0;
    }
    Move(dlsch, 0, data, 0, n);
  }

  /** FI, SN and E go into the first two octets, which are still zero. */
  method WriteFixedPart(h: array<byte>, n: nat, fi: nat, sn: nat)
    requires h.Length == HEADER_ROOM && fi < 4 && sn < 1024 && h[0] == 0
    modifies h
    ensures h[..] == FixedPart(n, fi, sn) + old(h[2..])
  {
    h[0] := h[0] + fi * 8 + sn / 256;
    h[1] := sn % 256;
    if n > 1 {
      h[0] := h[0] + 4;
    }
  }

  lemma {:induction false} FixedStaysZero(lens: seq<nat>)
    requires |lens| <= MAX_FIELDS
    ensures PutAll(lens)[0] == 0
    ensures lens != [] ==> DropLast(PutAll(lens), |lens|)[0] == 0
  {
    if lens != [] { FixedStaysZero(lens[..|lens| - 1]); }
  }

  /** The merged PDU of a block, by what its PDUs carry. */
  function BlockPdu(buffer: seq<byte>, lens: seq<nat>, numSrb: nat, fiInd: nat, sn: nat): (r: seq<byte>)
    requires numSrb < |lens| && Sum(lens) < |buffer| && sn < 1024
    requires AllWellFormed(Pdus(buffer, lens, numSrb, |lens|))
    requires 0 < |FieldsOf(Pdus(buffer, lens, numSrb, |lens|))| <= MAX_FIELDS
  {
    MergedPdu(FieldsOf(Pdus(buffer, lens, numSrb, |lens|)), MergedFi(LastFi(buffer, lens), fiInd), sn)
  }

  /**
   What the merge makes of a buffer `s` and of the UE's fi_ind and sn: it leaves its header
   buffer exactly when the block has no data field or more than 65; otherwise the buffer `d`
   holds the signalling SDUs, the merged PDU and zeros, and the next block knows which bearer
   was cut. `out` holds the two lengths the source goes on with.
   */
  ghost predicate BlockMerged(s: seq<byte>, lens: seq<nat>, n: nat, lastLcid: nat, srbTotal: nat, fiInd: nat, sn: nat,
                              d: seq<byte>, fiInd': nat, sn': nat, out: Outcome)
    requires n < |lens| && Sum(lens) < |s| && AllWellFormed(Pdus(s, lens, n, |lens|)) && sn < 1024
  {
    var fields := FieldsOf(Pdus(s, lens, n, |lens|));
    if 0 < |fields| <= MAX_FIELDS then
      var merged := BlockPdu(s, lens, n, fiInd, (sn + 1) % 1024);
      var used := Start(lens, n) + |merged|;
      && sn' == (sn + 1) % 1024
      && fiInd' == (if MergedFi(LastFi(s, lens), fiInd) % 2 == 1 then lastLcid else 0)
      && used <= |d|
      && d == s[..Start(lens, n)] + merged + Zeros(|d| - used)
      && out == Outcome.Merged(used, srbTotal + used)
    else
      out == OutOfBounds && fiInd' == fiInd && sn' == sn && d == s
  }

  /**
   The whole merge, in the source's order: signalling SDUs, then the PDUs' length indicators
   and data, then the finished header in front of the data.
   */
  method MergeBlock(dlsch: array<byte>, lens: seq<nat>, lcids: seq<nat>, stats: UeStats, srbTotal: nat, ghost n: nat)
    returns (out: Outcome)
    requires |lens| == |lcids| && SrbsFirst(lcids, n) && n < |lcids|
    requires Sum(lens) + 2 <= dlsch.Length && stats.sn < 1024
    requires AllWellFormed(Pdus(dlsch[..], lens, n, |lens|))
    modifies dlsch, stats
    ensures BlockMerged(old(dlsch[..]), lens, n, lcids[|lcids| - 1], srbTotal, old(stats.fiInd), old(stats.sn),
                        dlsch[..], stats.fiInd, stats.sn, out)
  {
    hide FieldsOf, Pdus, Concat, PutAll, AllWellFormed, MergedPdu, MergedFi;
    ghost var s := dlsch[..];
    ghost var fields := FieldsOf(Pdus(s, lens, n, |lens|));
    var header, data := new byte[HEADER_ROOM](_ => 0), new byte[dlsch.Length](_ => 0);
    assert header[..] == Zeros(HEADER_ROOM);
    var numSrb, srbLen := CopySrbs(dlsch, data, lens, lcids, n);
    ghost var srb := s[..srbLen];
    assert data[..srbLen] == srb;
    var ok, headerPos, total, bufferPos, fi := CopyPdus(dlsch, lens, numSrb, header, data, srbLen);
    if !ok {
      return OutOfBounds;
    }
    BlockFits(s, lens, n);
    out := Finish(dlsch, data, header, srbLen, headerPos, total, bufferPos, fi, stats, lcids[|lcids| - 1], srbTotal,
        srb, fields);
  }

  /** From the gathered header entries and data to the finished block. */
  method Finish(dlsch: array<byte>, data: array<byte>, header: array<byte>, srbLen: nat, headerPos: nat, total: nat,
                bufferPos: nat, fi: nat, stats: UeStats, lastLcid: nat, srbTotal: nat, ghost srb: seq<byte>,
                ghost fields: seq<seq<byte>>)
    returns (out: Outcome)
    requires dlsch != data && header != data && header != dlsch && header.Length == HEADER_ROOM &&
        dlsch.Length == data.Length
    requires total == |fields| <= MAX_FIELDS && headerPos == HeaderPos(total) && header[..] == PutAll(Lengths(fields))
    requires srbLen == |srb| && bufferPos == srbLen + |Concat(fields)| <= data.Length &&
        data[..bufferPos] == srb + Concat(fields)
    requires fields != [] ==> bufferPos + HeaderLen(total - 1) <= data.Length
    requires fi < 4 && stats.sn < 1024
    modifies dlsch, data, header, stats
    ensures out.Merged? <==> fields != []
    ensures out.Merged? ==>
      var fi' := MergedFi(fi, old(stats.fiInd));
      && stats.sn == (old(stats.sn) + 1) % 1024
      && stats.fiInd == (if fi' % 2 == 1 then lastLcid else 0)
      && var merged := MergedPdu(fields, fi', stats.sn); var used := |srb| + |merged|;
      && used <= dlsch.Length
      && dlsch[..] == srb + merged + Zeros(dlsch.Length - used)
      && out == Outcome.Merged(used, srbTotal + used)
    ensures !out.Merged? ==> stats.fiInd == old(stats.fiInd) && stats.sn == old(stats.sn) && dlsch[..] == old(dlsch[..])
  {
    hide Concat, PutAll, MergedHeader;
    var fi' := if stats.fiInd != 0 then 2 + fi % 2 else fi;
    var sn := (stats.sn + 1) % 1024;
    var ok, newPos := FinishHeader(header, headerPos, total, fi', sn, Lengths(fields));
    if !ok {
      return OutOfBounds;
    }
    stats.sn := sn;
    stats.fiInd := if fi' == 1 || fi' == 3 then lastLcid else 0;
    SplitAt(data[..bufferPos], srb, Concat(fields));
    assert data[..srbLen] == srb && data[srbLen..bufferPos] == Concat(fields);
    Assemble(dlsch, data, header, srbLen, newPos, bufferPos);
    assert srb + header[..newPos] + Concat(fields) == srb + (header[..newPos] + Concat(fields));
    out := Merged(bufferPos + newPos, srbTotal + bufferPos + newPos);
  }

  lemma SplitAt(s: seq<byte>, a: seq<byte>, b: seq<byte>)
    requires s == a + b
    ensures s[..|a|] == a && s[|a|..] == b
  {
  }

  method FinishHeader(header: array<byte>, headerPos: nat, total: nat, fi: nat, sn: nat, ghost lens: seq<nat>)
    returns (ok: bool, newPos: nat)
    requires header.Length == HEADER_ROOM && total == |lens| <= MAX_FIELDS && headerPos == HeaderPos(total)
    requires header[..] == PutAll(lens) && fi < 4 && sn < 1024
    modifies header
    ensures ok <==> lens != []
    ensures ok ==> newPos == HeaderLen(total - 1) <= HEADER_ROOM && header[..newPos] == MergedHeader(lens, fi, sn)
  {
    hide PutAll, DropLast, FixedPart;
    ok, newPos := TrimHeader(header, headerPos, total);
    if ok {
      FixedStaysZero(lens);
      WriteFixedPart(header, total, fi, sn);
    }
  }

  /** The merged block needs no more room than the gathered one. */
  lemma BlockFits(buffer: seq<byte>, lens: seq<nat>, n: nat)
    requires n < |lens| && Sum(lens) <= |buffer|
    requires AllWellFormed(Pdus(buffer, lens, n, |lens|))
    ensures var fields := FieldsOf(Pdus(buffer, lens, n, |lens|));
      fields != [] ==> Start(lens, n) + |Concat(fields)| + HeaderLen(|fields| - 1) <= Sum(lens)
  {
    hide FieldsOf, Concat, AllWellFormed, SduAt, HeaderLen;
    var pdus := Pdus(buffer, lens, n, |lens|);
    PduLengths(buffer, lens, n);
    HeadersShrink(pdus);
    assert lens == lens[..n] + lens[n..];
    SumAppend(lens[..n], lens[n..]);
  }

  lemma PduLengths(buffer: seq<byte>, lens: seq<nat>, n: nat)
    requires n < |lens| && Sum(lens) <= |buffer|
    ensures Lengths(Pdus(buffer, lens, n, |lens|)) == lens[n..]
  {
    hide SduAt, Sum;
    var pdus := Pdus(buffer, lens, n, |lens|);
    forall j | 0 <= j < |pdus| ensures |pdus[j]| == lens[n + j] {
      assert pdus[j] == SduAt(buffer, lens, n + j);
    }
  }

  /**
   What a receiver reads in the merged block: the FI of the block, the next SN and exactly the
   data fields of all PDUs in order, if and only if their lengths are representable.
   */
  lemma BlockMeaning(buffer: seq<byte>, lens: seq<nat>, n: nat, fiInd: nat, sn: nat)
    requires n < |lens| && Sum(lens) < |buffer| && sn < 1024
    requires AllWellFormed(Pdus(buffer, lens, n, |lens|))
    requires 0 < |FieldsOf(Pdus(buffer, lens, n, |lens|))| <= MAX_FIELDS
    ensures var fields := FieldsOf(Pdus(buffer, lens, n, |lens|));
      Parse(BlockPdu(buffer, lens, n, fiInd, sn)) == Some(Umd(MergedFi(LastFi(buffer, lens), fiInd), sn, fields))
      <==> Representable(Lengths(fields))
  {
    hide Parse, Pdus, AllWellFormed, FieldsOf, MergedPdu, Representable;
    var fields := FieldsOf(Pdus(buffer, lens, n, |lens|));
    FieldsNonEmpty(Pdus(buffer, lens, n, |lens|));
    MergeMeaning(fields, MergedFi(LastFi(buffer, lens), fiInd), sn);
  }

  /** PDUs laid out back to back are found again by their lengths. */
  lemma {:induction false} LaidOut(pdus: seq<seq<byte>>, buffer: seq<byte>, i: nat)
    requires i < |pdus| && Concat(pdus) <= buffer
    ensures Sum(Lengths(pdus)) == |Concat(pdus)|
    ensures SduAt(buffer, Lengths(pdus), i) == pdus[i]
  {
    hide Concat;
    var lens := Lengths(pdus);
    ConcatLength(pdus);
    ConcatLength(pdus[..i]);
    assert lens[..i] == Lengths(pdus[..i]);
    assert pdus == pdus[..i] + pdus[i..];
    ConcatAppend(pdus[..i], pdus[i..]);
    ConcatFirst(pdus[i..]);
    var rest := Concat(pdus[i..][1..]);
    assert Concat(pdus) == Concat(pdus[..i]) + (pdus[i] + rest);
    assert SduAt(buffer, lens, i) == buffer[Start(lens, i)..Start(lens, i) + lens[i]];
  }

  /** A gathered buffer without signalling holds its PDUs, and FI is read from the last of them. */
  lemma GatheredPdus(pdus: seq<seq<byte>>, buffer: seq<byte>)
    requires pdus != [] && Concat(pdus) <= buffer && |Concat(pdus)| < |buffer| && pdus[|pdus| - 1] != []
    ensures var lens := Lengths(pdus);
      && Sum(lens) == |Concat(pdus)| && Pdus(buffer, lens, 0, |lens|) == pdus
      && LastFi(buffer, lens) == Fi(pdus[|pdus| - 1])
  {
    hide Concat, SduAt;
    var lens, last := Lengths(pdus), |pdus| - 1;
    ConcatLength(pdus);
    forall i | 0 <= i < |pdus| ensures SduAt(buffer, lens, i) == pdus[i] {
      LaidOut(pdus, buffer, i);
    }
    assert Pdus(buffer, lens, 0, |lens|) == pdus;
    FirstOctet(buffer, lens, last);
  }

  lemma FirstOctet(buffer: seq<byte>, lens: seq<nat>, i: nat)
    requires i < |lens| && Sum(lens) < |buffer| && lens[i] > 0
    ensures buffer[Start(lens, i)] == SduAt(buffer, lens, i)[0]
  {
    SumPrefix(lens, i);
    SumPrefix(lens, i + 1);
  }
}
