/** What a receiver reads in a merged PDU, and how long the merged PDU is. */
module RlcMeaning {
  import opened Bytes
  import opened RlcUmd
  import opened RlcHeader

  /** The header buffer once the last entry is out. */
  function Trimmed(lens: seq<nat>): (r: seq<byte>)
    requires 0 < |lens| <= MAX_FIELDS
    ensures |r| == HEADER_ROOM
  {
    DropLast(PutAll(lens), |lens|)
  }

  lemma TrimmedReadsBack(lens: seq<nat>)
    requires 0 < |lens| <= MAX_FIELDS && AllShort(lens[..|lens| - 1])
    ensures var n := |lens|; var g := Trimmed(lens);
      && (forall k :: 0 <= k < n - 2 ==> Entry(g, k, lens[k]))
      && (n >= 2 ==> HasEli(g, n - 2) && Eli(g, n - 2) == ShownLast(n, lens[n - 2], lens[n - 1]))
  {
    hide PutLi, DropLast, ReadsBack, Entry, Eli, HasEli, ShownLast;
    var n := |lens|;
    PutAllReadsBack(lens[..n - 1]);
    if n % 2 == 0 {
      DropEven(PutAll(lens[..n - 1]), lens[..n - 1], lens[n - 1]);
    } else {
      DropOdd(PutAll(lens[..n - 1]), lens[..n - 1], lens[n - 1]);
    }
  }

  /** The entries of the trimmed buffer are those of the PDU, and the rest of the PDU is data. */
  lemma MergedLayout(fields: seq<seq<byte>>, fi: nat, sn: nat)
    requires 0 < |fields| <= MAX_FIELDS && fi < 4 && sn < 1024
    ensures var n := |fields|; var p := MergedPdu(fields, fi, sn);
      && |p| == HeaderLen(n - 1) + |Concat(fields)|
      && p[HeaderLen(n - 1)..] == Concat(fields)
      && Fi(p) == fi && Sn(p) == sn && (FirstE(p) <==> n > 1)
      && forall i :: 2 <= i < HeaderLen(n - 1) ==> p[i] == Trimmed(Lengths(fields))[i]
  {
    hide PutLi, DropLast, PutAll, Concat;
    var n := |fields|;
    var f := FixedPart(n, fi, sn);
    assert HeaderPos(n) - 1 == HeaderLen(n - 1);
    assert f[0] == fi * 8 + (if n > 1 then 4 else 0) + sn / 256;
    assert f[0] / 8 == fi && f[0] / 4 % 2 == (if n > 1 then 1 else 0) && f[0] % 4 == sn / 256;
  }

  lemma MergedEli(fields: seq<seq<byte>>, fi: nat, sn: nat, k: nat)
    requires 0 < |fields| <= MAX_FIELDS && fi < 4 && sn < 1024 && k < |fields| - 1
    ensures var p := MergedPdu(fields, fi, sn); var g := Trimmed(Lengths(fields));
      HasEli(p, k) && HasEli(g, k) && Eli(p, k) == Eli(g, k)
  {
    MergedLayout(fields, fi, sn);
    var n := |fields|;
    var p, g := MergedPdu(fields, fi, sn), Trimmed(Lengths(fields));
    assert 2 + (3 * k + 2) / 2 < HeaderLen(n - 1);
    NibbleFrame(p, g, 3 * k);
    NibbleFrame(p, g, 3 * k + 1);
    NibbleFrame(p, g, 3 * k + 2);
  }

  /** A run of entries with E set, closed by one without, is read as the list of its lengths. */
  lemma {:induction false} ChainReads(p: seq<byte>, lis: seq<nat>, k: nat)
    requires k < |lis|
    requires forall j :: k <= j < |lis| - 1 ==> Entry(p, j, lis[j])
    requires HasEli(p, |lis| - 1) && Eli(p, |lis| - 1) == lis[|lis| - 1] < 2048
    ensures Chain(p, k) == Some(lis[k..])
    decreases |lis| - k
  {
    if k < |lis| - 1 {
      assert Entry(p, k, lis[k]);
      ChainReads(p, lis, k + 1);
      assert [lis[k]] + lis[k + 1..] == lis[k..];
    } else {
      assert lis[k..] == [lis[k]];
    }
  }

  /** The receiver's length indicators are the lengths of all fields but the last. */
  lemma MergedLis(fields: seq<seq<byte>>, fi: nat, sn: nat)
    requires fi < 4 && sn < 1024 && Representable(Lengths(fields)) && |fields| > 1
    ensures Chain(MergedPdu(fields, fi, sn), 0) == Some(Lengths(fields)[..|fields| - 1])
  {
    hide Chain, MergedPdu, Trimmed, Eli, HasEli, ShownLast;
    var n, lens := |fields|, Lengths(fields);
    var p, lis := MergedPdu(fields, fi, sn), lens[..n - 1];
    TrimmedReadsBack(lens);
    forall j | 0 <= j < n - 2 ensures Entry(p, j, lis[j]) {
      MergedEli(fields, fi, sn, j);
      assert Entry(Trimmed(lens), j, lens[j]);
    }
    MergedEli(fields, fi, sn, n - 2);
    ChainReads(p, lis, 0);
    assert lis[0..] == lis;
  }

  lemma RepresentableReadsBack(fields: seq<seq<byte>>, fi: nat, sn: nat)
    requires fi < 4 && sn < 1024
    requires Representable(Lengths(fields))
    requires forall i :: 0 <= i < |fields| ==> fields[i] != []
    ensures Parse(MergedPdu(fields, fi, sn)) == Some(Umd(fi, sn, fields))
  {
    hide Chain, MergedPdu, Concat, Split, Fi, Sn;
    var p, lis := MergedPdu(fields, fi, sn), Lengths(fields)[..|fields| - 1];
    MergedLayout(fields, fi, sn);
    SplitConcat(fields);
    if |fields| > 1 { MergedLis(fields, fi, sn); }
    assert Lis(p) == Some(lis);
  }

  lemma EliExtended(p: seq<byte>, z: seq<byte>, k: nat)
    requires HasEli(p, k)
    ensures HasEli(p + z, k) && Eli(p + z, k) == Eli(p, k)
  {
    NibbleFrame(p, p + z, 3 * k);
    NibbleFrame(p, p + z, 3 * k + 1);
    NibbleFrame(p, p + z, 3 * k + 2);
  }

  /** Even if only the lengths of all fields but the last are read back, from a PDU with octets behind it. */
  lemma LengthsOnlyIfRepresentable(fields: seq<seq<byte>>, fi: nat, sn: nat, z: seq<byte>)
    requires 0 < |fields| <= MAX_FIELDS && fi < 4 && sn < 1024
    requires var u := Parse(MergedPdu(fields, fi, sn) + z);
      u.Some? && |u.value.fields| == |fields| && forall i :: 0 <= i < |fields| - 1 ==>
          |u.value.fields[i]| == |fields[i]|
    ensures Representable(Lengths(fields))
  {
    hide MergedPdu, Trimmed, Parse, Eli, Entry, ShownLast, Concat;
    var n := |fields|;
    var lens := Lengths(fields);
    var p := MergedPdu(fields, fi, sn);
    ParseSound(p + z);
    assert AllShort(lens[..n - 1]);
    if n > 1 {
      TrimmedReadsBack(lens);
      MergedEli(fields, fi, sn, n - 2);
      EliExtended(p, z, n - 2);
      assert lens[n - 2] == Eli(p, n - 2) % 2048;
      assert ShownLast(n, lens[n - 2], lens[n - 1]) < 2048;
    }
  }

  lemma ReadsBackOnlyIfRepresentable(fields: seq<seq<byte>>, fi: nat, sn: nat)
    requires 0 < |fields| <= MAX_FIELDS && fi < 4 && sn < 1024
    requires Parse(MergedPdu(fields, fi, sn)) == Some(Umd(fi, sn, fields))
    ensures Representable(Lengths(fields))
  {
    hide MergedPdu, Parse, Representable;
    assert MergedPdu(fields, fi, sn) + [] == MergedPdu(fields, fi, sn);
    LengthsOnlyIfRepresentable(fields, fi, sn, []);
  }

  /**
   The merge preserves meaning exactly when the lengths are representable: a receiver gets
   the announced FI and SN and every data field, whole, in order and nothing else.
   */
  lemma MergeMeaning(fields: seq<seq<byte>>, fi: nat, sn: nat)
    requires 0 < |fields| <= MAX_FIELDS && fi < 4 && sn < 1024
    requires forall i :: 0 <= i < |fields| ==> fields[i] != []
    ensures Parse(MergedPdu(fields, fi, sn)) == Some(Umd(fi, sn, fields)) <==> Representable(Lengths(fields))
  {
    if Representable(Lengths(fields)) {
      RepresentableReadsBack(fields, fi, sn);
    }
    if Parse(MergedPdu(fields, fi, sn)) == Some(Umd(fi, sn, fields)) {
      ReadsBackOnlyIfRepresentable(fields, fi, sn);
    }
  }

  /** Lengths under 2048 are always representable. */
  lemma ShortIsRepresentable(lens: seq<nat>)
    requires 0 < |lens| <= MAX_FIELDS && AllShort(lens)
    ensures Representable(lens)
  {
    var last := lens[|lens| - 1];
    assert last / 256 < 8;
    assert (8 + last / 256) / 16 == 0;
  }

  // ----- length of the merged PDU

  predicate Readable(p: seq<byte>) {
    p == [] || WellFormed(p)
  }

  /** RLC hands over either nothing or a PDU that a receiver can read. */
  predicate AllWellFormed(pdus: seq<seq<byte>>) {
    forall i :: 0 <= i < |pdus| ==> Readable(pdus[i])
  }

  function FieldsOfOne(p: seq<byte>): (r: seq<seq<byte>>)
    requires Readable(p)
  {
    if p == [] then [] else Parse(p).value.fields
  }

  /** All data fields of the PDUs of a block, in order; empty PDUs contribute none. */
  function FieldsOf(pdus: seq<seq<byte>>): (r: seq<seq<byte>>)
    requires AllWellFormed(pdus)
  {
    if pdus == [] then []
    else FieldsOf(pdus[..|pdus| - 1]) + FieldsOfOne(pdus[|pdus| - 1])
  }

  lemma NoFieldsYet()
    ensures FieldsOf([]) == []
  {
  }

  lemma FieldsNext(pdus: seq<seq<byte>>, p: seq<byte>)
    requires AllWellFormed(pdus + [p])
    ensures AllWellFormed(pdus) && Readable(p)
    ensures FieldsOf(pdus + [p]) == FieldsOf(pdus) + FieldsOfOne(p)
  {
    hide FieldsOfOne, Readable;
    var all := pdus + [p];
    assert forall i :: 0 <= i < |pdus| ==> pdus[i] == all[i];
    assert all[|pdus|] == p;
    assert all[..|all| - 1] == pdus;
  }

  lemma {:induction false} FieldsNonEmpty(pdus: seq<seq<byte>>)
    requires AllWellFormed(pdus)
    ensures forall i :: 0 <= i < |FieldsOf(pdus)| ==> FieldsOf(pdus)[i] != []
  {
    if pdus != [] {
      FieldsNonEmpty(pdus[..|pdus| - 1]);
      var p := pdus[|pdus| - 1];
      if p != [] { ParseSound(p); }
    }
  }

  /** Headers of the inputs together are at least as long as the merged header. */
  lemma {:induction false} HeadersShrink(pdus: seq<seq<byte>>)
    requires AllWellFormed(pdus)
    ensures var n := |FieldsOf(pdus)|;
      n > 0 ==> HeaderLen(n - 1) + |Concat(FieldsOf(pdus))| <= Sum(Lengths(pdus))
    ensures FieldsOf(pdus) == [] ==> Sum(Lengths(pdus)) == 0
  {
    hide FieldsOfOne, Concat, Readable, HeaderLen;
    if pdus != [] {
      var init, p := pdus[..|pdus| - 1], pdus[|pdus| - 1];
      assert Readable(p);
      HeadersShrink(init);
      assert Lengths(pdus)[..|pdus| - 1] == Lengths(init);
      OneHeader(p);
      ConcatAppend(FieldsOf(init), FieldsOfOne(p));
      HeaderLenAppend(|FieldsOf(init)|, |FieldsOfOne(p)|);
      assert FieldsOf(pdus) == FieldsOf(init) + FieldsOfOne(p);
      assert FieldsOf(init) == [] ==> FieldsOf(pdus) == FieldsOfOne(p);
      assert FieldsOfOne(p) == [] ==> FieldsOf(pdus) == FieldsOf(init);
    }
  }

  lemma OneHeader(p: seq<byte>)
    requires Readable(p)
    ensures var f := FieldsOfOne(p);
      if f == [] then p == [] else HeaderLen(|f| - 1) + |Concat(f)| == |p|
  {
    hide Parse, Concat;
    if p != [] { ParseSound(p); }
  }

  lemma HeaderLenAppend(a: nat, b: nat)
    ensures a > 0 && b > 0 ==> HeaderLen(a + b - 1) <= HeaderLen(a - 1) + HeaderLen(b - 1)
  {
  }

  /** The merged PDU never needs more octets than the PDUs it replaces. */
  lemma MergeNeverGrows(pdus: seq<seq<byte>>, fi: nat, sn: nat)
    requires AllWellFormed(pdus)
    requires 0 < |FieldsOf(pdus)| <= MAX_FIELDS && fi < 4 && sn < 1024
    ensures |MergedPdu(FieldsOf(pdus), fi, sn)| <= Sum(Lengths(pdus))
  {
    MergedLayout(FieldsOf(pdus), fi, sn);
    HeadersShrink(pdus);
  }

  /** Merging a single PDU keeps its length. */
  lemma MergeOfOne(p: seq<byte>, fi: nat, sn: nat)
    requires WellFormed(p) && |FieldsOf([p])| <= MAX_FIELDS && fi < 4 && sn < 1024
    ensures FieldsOf([p]) == Parse(p).value.fields
    ensures |MergedPdu(FieldsOf([p]), fi, sn)| == |p|
  {
    hide Parse, Concat, MergedPdu;
    var one := [p];
    ParsedSize(p);
    assert one[..0] == [];
    assert FieldsOf(one) == [] + Parse(p).value.fields;
    ParseSound(p);
    MergedLayout(FieldsOf(one), fi, sn);
  }
}
