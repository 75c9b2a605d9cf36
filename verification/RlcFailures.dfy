/**
 Blocks on which the merge fails: too many fields, a last field too long, and FI read from a stale
 octet.
 */
module RlcFailures {
  import opened Bytes
  import opened RlcUmd
  import opened RlcHeader
  import opened RlcMeaning
  import opened RlcMerge

  // ----- more fields than the header buffer holds

  /** n data fields of one octet. */
  function Octets(n: nat): (r: seq<seq<byte>>)
    ensures |r| == n
  {
    seq(n, i => [0])
  }

  /** A PDU with n data fields of one octet. */
  function OctetPdu(n: nat): (r: seq<byte>)
    requires 0 < n <= MAX_FIELDS
  {
    MergedPdu(Octets(n), 0, 0)
  }

  lemma OctetPduReads(n: nat)
    requires 0 < n <= MAX_FIELDS
    ensures Parse(OctetPdu(n)) == Some(Umd(0, 0, Octets(n)))
  {
    hide Parse, MergedPdu;
    ShortIsRepresentable(Lengths(Octets(n)));
    RepresentableReadsBack(Octets(n), 0, 0);
  }

  /** Two readable PDUs with 65 fields and one: the merge writes behind its header buffer. */
  lemma TooManyFields()
    ensures var pdus := [OctetPdu(65), OctetPdu(1)]; var lens := Lengths(pdus); var s := Concat(pdus) + [0, 0];
      && AllWellFormed(pdus) && |FieldsOf(pdus)| == 66
      && Sum(lens) < |s| && Pdus(s, lens, 0, 2) == pdus
      && forall d, fiInd, sn, out :: BlockMerged(s, lens, 0, DTCH, 0, 0, 0, d, fiInd, sn, out) ==> out == OutOfBounds
  {
    hide Parse, OctetPdu, FieldsOf, Pdus, Concat, BlockPdu;
    OctetPduReads(65);
    OctetPduReads(1);
    var p, q := OctetPdu(65), OctetPdu(1);
    TwoFieldLists(p, q);
    ParsedSize(q);
    GatheredPdus([p, q], Concat([p, q]) + [0, 0]);
  }

  lemma TwoFieldLists(p: seq<byte>, q: seq<byte>)
    requires WellFormed(p) && WellFormed(q)
    ensures AllWellFormed([p, q]) && FieldsOf([p, q]) == Parse(p).value.fields + Parse(q).value.fields
  {
    hide Parse;
    ParsedSize(p);
    ParsedSize(q);
    assert [] + [p] == [p] && [p] + [q] == [p, q];
    FieldsNext([], p);
    FieldsNext([p], q);
    NoFieldsYet();
    assert [] + FieldsOfOne(p) == FieldsOfOne(p);
  }

  // ----- a last field of 2048 octets

  /**
   The length of the last of two fields carries into the one before it, which takes an octet of the
   last.
   */
  lemma LongLastField(x: byte, fi: nat, sn: nat)
    requires fi < 4 && sn < 1024
    ensures var fields := [[x], Zeros(2048)];
      Parse(MergedPdu(fields, fi, sn)) == Some(Umd(fi, sn, [[x, 0], Zeros(2047)]))
  {
    hide MergedPdu, Trimmed, Eli, Entry, Concat, Fi, Sn, FirstE, HeaderLen;
    var fields: seq<seq<byte>> := [[x], Zeros(2048)];
    var lens, p := Lengths(fields), MergedPdu(fields, fi, sn);
    assert lens == [1, 2048];
    MergedLayout(fields, fi, sn);
    TrimmedReadsBack(lens);
    MergedEli(fields, fi, sn, 0);
    assert Eli(p, 0) == 2;
    OneLi(p, 2);
    LongData(x);
    CutAtTwo(x, Concat(fields));
  }

  lemma OneLi(p: seq<byte>, li: nat)
    requires |p| >= 2 && FirstE(p) && HasEli(p, 0) && Eli(p, 0) == li < 2048
    ensures Lis(p) == Some([li])
  {
  }

  lemma LongData(x: byte)
    ensures Concat([[x], Zeros(2048)]) == [x] + Zeros(2048)
  {
    var fields: seq<seq<byte>> := [[x], Zeros(2048)];
    ConcatFirst(fields);
    ConcatFirst(fields[1..]);
    assert fields[1..][1..] == [];
  }

  lemma CutAtTwo(x: byte, data: seq<byte>)
    requires data == [x] + Zeros(2048)
    ensures Split(data, [2]) == Some([[x, 0], Zeros(2047)])
  {
    var rest, lis: seq<nat> := data[2..], [2];
    assert rest == Zeros(2047) && data[..2] == [x, 0] && lis[1..] == [];
    assert Split(rest, []) == Some([rest]);
    assert Split(data, lis) == Some([data[..2]] + [rest]);
    assert [data[..2]] + [rest] == [[x, 0], Zeros(2047)];
  }

  // ----- a first field of 2049 octets

  /** The header keeps one octet of the first length; the rest becomes part of the last field. */
  lemma LongFirstField(fi: nat, sn: nat)
    requires fi < 4 && sn < 1024
    ensures Parse(MergedPdu([Zeros(2049), [0]], fi, sn)) == Some(Umd(fi, sn, [[0], Zeros(2049)]))
  {
    hide MergedPdu, Trimmed, Eli, Entry, Concat, Fi, Sn, FirstE, HeaderLen;
    var fields: seq<seq<byte>> := [Zeros(2049), [0]];
    var lens, p := Lengths(fields), MergedPdu(fields, fi, sn);
    assert lens == [2049, 1];
    MergedLayout(fields, fi, sn);
    MergedEli(fields, fi, sn, 0);
    LongFirstLi();
    OneLi(p, 1);
    ShortData();
    CutAtOne(Concat(fields));
  }

  lemma LongFirstLi()
    ensures HasEli(Trimmed([2049, 1]), 0) && Eli(Trimmed([2049, 1]), 0) == 1
  {
    var one, two: seq<nat> := [2049], [2049, 1];
    assert one[..0] == [] && two[..1] == one;
    var h1 := PutAll(one);
    assert h1[2] == 0 && h1[3] == 16 && h1[4] == 0;
    var h2 := PutAll(two);
    assert h2 == PutLi(h1, 1, 1);
    assert h2[2] == 0 && h2[3] == 24 && h2[4] == 1;
    var g := Trimmed(two);
    assert g[2] == 0 && g[3] == 16;
  }

  lemma ShortData()
    ensures Concat([Zeros(2049), [0]]) == Zeros(2049) + [0]
  {
    var fields: seq<seq<byte>> := [Zeros(2049), [0]];
    ConcatFirst(fields);
    ConcatFirst(fields[1..]);
    assert fields[1..][1..] == [];
  }

  lemma CutAtOne(data: seq<byte>)
    requires data == Zeros(2049) + [0]
    ensures Split(data, [1]) == Some([[0], Zeros(2049)])
  {
    var rest, lis: seq<nat> := data[1..], [1];
    assert rest == Zeros(2049) && data[..1] == [0] && lis[1..] == [];
    assert Split(rest, []) == Some([rest]);
    assert Split(data, lis) == Some([data[..1]] + [rest]);
    assert [data[..1]] + [rest] == [[0], Zeros(2049)];
  }

  // ----- FI of a block whose last bearer returned nothing

  /** The last PDU with octets. */
  function LastBusy(lens: seq<nat>): (r: nat)
    requires Sum(lens) > 0
    ensures r < |lens| && lens[r] > 0
  {
    var n := |lens| - 1;
    if lens[n] > 0 then n else LastBusy(lens[..n])
  }

  /**
   FI is that of the last PDU with octets, whatever lies behind the block, if and only if the last
   length is positive.
   */
  lemma LastFiExact(lens: seq<nat>, s: seq<byte>)
    requires |s| == Sum(lens) > 0
    ensures (forall tail: seq<byte> :: tail != [] ==> LastFi(s + tail, lens) == Fi(SduAt(s, lens, LastBusy(lens)))) <==>
            lens[|lens| - 1] > 0
  {
    hide LastFi, SduAt, Fi, LastBusy, Sum;
    var n, fi := |lens| - 1, Fi(SduAt(s, lens, LastBusy(lens)));
    if lens[n] > 0 {
      BusyLast(lens);
      forall tail: seq<byte> | tail != [] ensures LastFi(s + tail, lens) == fi {
        FiFromLast(lens, s, tail);
      }
    } else {
      var tail := AnotherFi(fi);
      FiFromBehind(lens, s, tail);
      assert LastFi(s + tail, lens) != fi;
    }
  }

  lemma BusyLast(lens: seq<nat>)
    requires Sum(lens) > 0 && lens != [] && lens[|lens| - 1] > 0
    ensures LastBusy(lens) == |lens| - 1
  {
  }

  lemma AnotherFi(fi: nat) returns (tail: seq<byte>)
    requires fi < 4
    ensures tail != [] && Fi(tail) != fi
  {
    tail := [if fi == 0 then 8 else 0];
  }

  lemma FiFromLast(lens: seq<nat>, s: seq<byte>, tail: seq<byte>)
    requires |s| == Sum(lens) && lens != [] && lens[|lens| - 1] > 0 && tail != []
    ensures LastFi(s + tail, lens) == Fi(SduAt(s, lens, |lens| - 1))
  {
    var n := |lens| - 1;
    FirstOctet(s + tail, lens, n);
    SumPrefix(lens, n);
    assert lens[..n + 1] == lens;
  }

  lemma FiFromBehind(lens: seq<nat>, s: seq<byte>, tail: seq<byte>)
    requires |s| == Sum(lens) && lens != [] && lens[|lens| - 1] == 0 && tail != []
    ensures LastFi(s + tail, lens) == Fi(tail)
  {
    var n := |lens| - 1;
    SumPrefix(lens, n);
    assert lens[..n + 1] == lens;
    assert (s + tail)[|s|..] == tail;
  }

  /**
   Two blocks with the same PDUs, of which the last is empty: what an earlier block left behind them decides
   about FI, and whether LCID 4, which has nothing to send, is polled ahead of its turn next time.
   */
  lemma StaleFi()
    ensures var p := OctetPdu(1); var lens := [|p|, 0]; var a := p + [0, 0]; var b := p + [8, 0];
      && Sum(lens) < |a| && Sum(lens) < |b| && Pdus(a, lens, 0, 2) == Pdus(b, lens, 0, 2) == [p, []]
      && AllWellFormed([p, []]) && LastFi(a, lens) == 0 && LastFi(b, lens) == 1
      && (forall d, fiInd, sn, out :: BlockMerged(a, lens, 0, 4, 0, 0, 0, d, fiInd, sn, out) ==> fiInd == 0)
      && (forall d, fiInd, sn, out :: BlockMerged(b, lens, 0, 4, 0, 0, 0, d, fiInd, sn, out) ==> fiInd == 4)
  {
    hide Parse, OctetPdu, FieldsOf, Pdus, BlockPdu, LastFi, AllWellFormed;
    var p := OctetPdu(1);
    var lens: seq<nat> := [|p|, 0];
    OctetPduReads(1);
    EmptyBehind(p);
    TwoLengths(|p|);
    TwoPdus(p, [0, 0]);
    TwoPdus(p, [8, 0]);
    FiFromBehind(lens, p, [0, 0]);
    FiFromBehind(lens, p, [8, 0]);
  }

  lemma TwoLengths(n: nat)
    ensures Sum([n, 0]) == n
  {
    assert [n, 0] == [] + [n] + [0];
    SumNext([], n);
    SumNext([] + [n], 0);
    NoneYet();
  }

  lemma EmptyBehind(p: seq<byte>)
    requires WellFormed(p)
    ensures AllWellFormed([p, []]) && FieldsOf([p, []]) == Parse(p).value.fields
  {
    hide Parse, FieldsOf;
    ParsedSize(p);
    var none: seq<seq<byte>> := [];
    assert none + [p] == [p] && [p] + [[]] == [p, []];
    assert AllWellFormed([p]) && AllWellFormed([p, []]);
    FieldsNext(none, p);
    FieldsNext([p], []);
    NoFieldsYet();
    assert FieldsOfOne(p) == Parse(p).value.fields && FieldsOfOne([]) == none;
    assert none + FieldsOfOne(p) + none == FieldsOfOne(p);
  }

  lemma TwoPdus(p: seq<byte>, tail: seq<byte>)
    ensures var lens := [|p|, 0]; Sum(lens) <= |p + tail| && Pdus(p + tail, lens, 0, 2) == [p, []]
  {
    var lens: seq<nat> := [|p|, 0];
    TwoLengths(|p|);
    assert lens[..0] == [] && lens[..1] == [|p|];
    NoneYet();
    SumNext([], |p|);
    assert [] + [|p|] == [|p|];
    assert SduAt(p + tail, lens, 0) == p;
    assert SduAt(p + tail, lens, 1) == [];
  }

  // ----- no field at all

  /** One bearer that returned nothing: the merge writes before its header buffer. */
  lemma NoFieldAtAll()
    ensures var lens := [0]; var s := [0, 0];
      && Sum(lens) < |s| && AllWellFormed(Pdus(s, lens, 0, 1)) && FieldsOf(Pdus(s, lens, 0, 1)) == []
      && forall d, fiInd, sn, out :: BlockMerged(s, lens, 0, DTCH, 0, 0, 0, d, fiInd, sn, out) ==> out == OutOfBounds
  {
    hide Parse, BlockPdu;
    var lens: seq<nat>, s: seq<byte>, none: seq<seq<byte>> := [0], [0, 0], [[]];
    assert lens[..0] == [] && [] + [0] == lens;
    SumNext([], 0);
    NoneYet();
    assert SduAt(s, lens, 0) == [];
    assert Pdus(s, lens, 0, 1) == none;
    var nothing: seq<seq<byte>> := [];
    assert nothing + none == none;
    FieldsNext(nothing, []);
    NoFieldsYet();
  }

  // ----- signalling octets are counted twice

  /** The length of the merged PDU is right if and only if there are no signalling octets before it. */
  lemma SignallingExact(s: seq<byte>, lens: seq<nat>, n: nat, lastLcid: nat, srbTotal: nat, fiInd: nat, sn: nat,
                        d: seq<byte>, fiInd': nat, sn': nat, out: Outcome)
    requires n < |lens| && Sum(lens) < |s| && AllWellFormed(Pdus(s, lens, n, |lens|)) && sn < 1024
    requires BlockMerged(s, lens, n, lastLcid, srbTotal, fiInd, sn, d, fiInd', sn', out) && out.Merged?
    ensures out.sduLength == |BlockPdu(s, lens, n, fiInd, sn')| <==> Start(lens, n) == 0
    ensures srbTotal == Start(lens, n) ==>
        (out.sduTotal == Start(lens, n) + |BlockPdu(s, lens, n, fiInd, sn')| <==> Start(lens, n) == 0)
  {
    hide FieldsOf, Pdus, AllWellFormed, BlockPdu, Start, MergedFi, LastFi, Sum;
  }

  /** One signalling octet and a data PDU of three: the merged PDU counts for four octets, the block for five. */
  lemma SignallingCountedTwice()
    ensures var p := OctetPdu(1); var lens := [1, |p|]; var s := [7] + p + [0, 0];
      && |p| == 3 && Sum(lens) < |s| && Pdus(s, lens, 1, 2) == [p] && AllWellFormed([p])
      && forall d, fiInd, sn, out :: BlockMerged(s, lens, 1, 4, 1, 0, 0, d, fiInd, sn, out) ==>
           out == Outcome.Merged(4, 5)
  {
    hide Parse, OctetPdu, FieldsOf, BlockPdu, LastFi, AllWellFormed;
    var p := OctetPdu(1);
    OctetPduReads(1);
    OctetPduLength();
    var lens: seq<nat>, s: seq<byte> := [1, |p|], [7] + p + [0, 0];
    SrbAndPdu(p);
    OnePduList(p);
    assert FieldsOf([p]) == Octets(1);
    forall d, fiInd, sn, out | BlockMerged(s, lens, 1, 4, 1, 0, 0, d, fiInd, sn, out)
        ensures out == Outcome.Merged(4, 5) {
      BlockPduLength(s, lens, p);
    }
  }

  lemma OctetPduLength()
    ensures |OctetPdu(1)| == 3
  {
    hide MergedPdu, Concat;
    MergedLayout(Octets(1), 0, 0);
    var one := Octets(1);
    ConcatFirst(one);
    assert one[1..] == [];
    NothingLeft();
  }

  lemma NothingLeft()
    ensures Concat([]) == []
  {
  }

  lemma OnePduList(p: seq<byte>)
    requires WellFormed(p)
    ensures AllWellFormed([p]) && FieldsOf([p]) == Parse(p).value.fields
  {
    hide Parse, FieldsOf;
    ParsedSize(p);
    var none: seq<seq<byte>> := [];
    assert none + [p] == [p];
    FieldsNext(none, p);
    NoFieldsYet();
    assert none + FieldsOfOne(p) == FieldsOfOne(p);
  }

  lemma SrbAndPdu(p: seq<byte>)
    ensures var lens := [1, |p|]; var s := [7] + p + [0, 0];
      Sum(lens) == 1 + |p| && Start(lens, 1) == 1 && Pdus(s, lens, 1, 2) == [p]
  {
    var lens: seq<nat>, s: seq<byte> := [1, |p|], [7] + p + [0, 0];
    assert lens == [] + [1] + [|p|] && lens[..1] == [] + [1];
    NoneYet();
    SumNext([], 1);
    SumNext([] + [1], |p|);
    assert s[1..1 + |p|] == p;
    assert SduAt(s, lens, 1) == p;
  }

  lemma BlockPduLength(s: seq<byte>, lens: seq<nat>, p: seq<byte>)
    requires |p| == 3 && WellFormed(p) && lens == [1, 3] && Sum(lens) < |s| && Pdus(s, lens, 1, 2) == [p]
    requires AllWellFormed([p]) && FieldsOf([p]) == Octets(1) && |FieldsOf([p])| == 1
    ensures |BlockPdu(s, lens, 1, 0, 1)| == 3
  {
    hide Parse, FieldsOf, LastFi, MergedPdu, AllWellFormed, Pdus, WellFormed;
    MergeOfOne(p, MergedFi(LastFi(s, lens), 0), 1);
  }
}
