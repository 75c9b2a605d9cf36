/**
 The UMD PDU with 10-bit sequence number of section 6.2.1.3 of 3GPP TS 36.322, as the
 receiving side reads it. Everything after the two fixed octets is read as a stream of
 4-bit units, three for each E/LI field, with no case split on the parity of a field.
 */
module RlcUmd {
  import opened Bytes

  /** FI: framing info (section 6.2.2.6), SN: sequence number, and the data fields in order. */
  datatype Umd = Umd(fi: nat, sn: nat, fields: seq<seq<byte>>)

  function Fi(p: seq<byte>): (r: nat)
    requires |p| >= 1
    ensures r < 4
  {
    p[0] / 8 % 4
  }

  predicate FirstE(p: seq<byte>)
    requires |p| >= 1
  {
    p[0] / 4 % 2 == 1
  }

  function Sn(p: seq<byte>): (r: nat)
    requires |p| >= 2
    ensures r < 1024
  {
    var high: int := p[0];
    high % 4 * 256 + p[1]
  }

  /** The i-th 4-bit unit after the fixed part. */
  function Nibble(p: seq<byte>, i: nat): (r: nat)
    requires 2 + i / 2 < |p|
    ensures r < 16
  {
    if i % 2 == 0 then p[2 + i / 2] / 16 else p[2 + i / 2] % 16
  }

  /** The k-th field lies inside the PDU. */
  predicate HasEli(p: seq<byte>, k: nat) {
    2 + (3 * k + 2) / 2 < |p|
  }

  /** The k-th 12-bit E/LI field: E is its top bit, LI the other eleven. */
  function Eli(p: seq<byte>, k: nat): (r: nat)
    requires HasEli(p, k)
    ensures r < 4096
  {
    Nibble(p, 3 * k) * 256 + Nibble(p, 3 * k + 1) * 16 + Nibble(p, 3 * k + 2)
  }

  /** The length indicators from field k up to the first one whose E bit is clear. */
  function Chain(p: seq<byte>, k: nat): (r: Option<seq<nat>>)
    ensures r.Some? ==> |r.value| > 0
    decreases |p| - k
  {
    if !HasEli(p, k) then None
    else if Eli(p, k) < 2048 then Some([Eli(p, k)])
    else
      match Chain(p, k + 1)
      case None => None
      case Some(rest) => Some([Eli(p, k) - 2048] + rest)
  }

  function Lis(p: seq<byte>): (r: Option<seq<nat>>)
    requires |p| >= 2
  {
    if FirstE(p) then Chain(p, 0) else Some([])
  }

  /** Length of the header with n E/LI fields: 12 bits each, padded to a whole octet. */
  function HeaderLen(n: nat): (r: nat) {
    2 + (3 * n + 1) / 2
  }

  /** Cuts a data area at the length indicators; no field may be empty. */
  function Split(data: seq<byte>, lis: seq<nat>): (r: Option<seq<seq<byte>>>)
    ensures r.Some? ==> |r.value| == |lis| + 1
    decreases |lis|
  {
    if lis == [] then
      if data == [] then None else Some([data])
    else if 0 < lis[0] <= |data| then
      match Split(data[lis[0]..], lis[1..])
      case None => None
      case Some(rest) => Some([data[..lis[0]]] + rest)
    else None
  }

  function Parse(p: seq<byte>): (r: Option<Umd>)
    ensures r.Some? ==> r.value.fi < 4 && r.value.sn < 1024 && r.value.fields != []
  {
    if |p| < 2 then None
    else
      match Lis(p)
      case None => None
      case Some(lis) =>
        if HeaderLen(|lis|) > |p| then None
        else
          match Split(p[HeaderLen(|lis|)..], lis)
          case None => None
          case Some(fields) => Some(Umd(Fi(p), Sn(p), fields))
  }

  predicate WellFormed(p: seq<byte>) {
    Parse(p).Some?
  }

  /** Splitting along the pieces' own lengths gives the pieces back. */
  lemma {:induction false} SplitConcat(fields: seq<seq<byte>>)
    requires fields != []
    requires forall i :: 0 <= i < |fields| ==> fields[i] != []
    ensures Split(Concat(fields), Lengths(fields)[..|fields| - 1]) == Some(fields)
    decreases |fields|
  {
    ConcatFirst(fields);
    var lis := Lengths(fields)[..|fields| - 1];
    if |fields| == 1 {
      assert fields == [fields[0]];
      assert Concat(fields) == fields[0];
      assert lis == [];
    } else {
      SplitConcat(fields[1..]);
      assert lis[1..] == Lengths(fields[1..])[..|fields| - 2];
      assert Concat(fields)[lis[0]..] == Concat(fields[1..]);
      assert Concat(fields)[..lis[0]] == fields[0];
      assert [fields[0]] + fields[1..] == fields;
    }
  }

  /** Whatever is split is exactly the data, cut into non-empty pieces of the stated lengths. */
  lemma {:induction false} SplitSound(data: seq<byte>, lis: seq<nat>)
    requires Split(data, lis).Some?
    ensures var f := Split(data, lis).value;
      && Concat(f) == data
      && (forall i :: 0 <= i < |f| ==> f[i] != [])
      && forall i :: 0 <= i < |lis| ==> |f[i]| == lis[i]
    decreases |lis|
  {
    var f := Split(data, lis).value;
    ConcatFirst(f);
    if lis == [] {
      assert f[1..] == [];
    } else {
      var rest := Split(data[lis[0]..], lis[1..]).value;
      SplitSound(data[lis[0]..], lis[1..]);
      assert f == [data[..lis[0]]] + rest;
      assert f[1..] == rest;
      assert forall i :: 0 < i < |lis| ==> lis[i] == lis[1..][i - 1];
    }
  }

  /** The chain lists the LI parts of consecutive fields, all below 2048. */
  lemma {:induction false} ChainSound(p: seq<byte>, k: nat)
    requires Chain(p, k).Some?
    ensures var c := Chain(p, k).value;
      forall j :: k <= j < k + |c| ==> HasEli(p, j) && c[j - k] == Eli(p, j) % 2048
    decreases |p| - k
  {
    hide Eli;
    if Eli(p, k) >= 2048 {
      ChainSound(p, k + 1);
    }
  }

  /** What a successful parse says about the octets it read. */
  lemma ParseSound(p: seq<byte>)
    requires WellFormed(p)
    ensures var u := Parse(p).value; var n := |u.fields|;
      && |p| == HeaderLen(n - 1) + |Concat(u.fields)|
      && p[HeaderLen(n - 1)..] == Concat(u.fields)
      && (forall i :: 0 <= i < n ==> u.fields[i] != [])
      && (forall i :: 0 <= i < n - 1 ==> HasEli(p, i) && |u.fields[i]| == Eli(p, i) % 2048)
  {
    var lis, fields := Lis(p).value, Parse(p).value.fields;
    assert Split(p[HeaderLen(|lis|)..], lis) == Some(fields);
    hide Eli, HasEli, Chain, Split, Concat, HeaderLen;
    SplitSound(p[HeaderLen(|lis|)..], lis);
    if FirstE(p) { ChainSound(p, 0); }
  }

  /** A PDU carries the two fixed octets and at least one data octet. */
  lemma {:induction false} ParsedSize(p: seq<byte>)
    requires WellFormed(p)
    ensures |p| >= 3
  {
    ParseSound(p);
    ConcatFirst(Parse(p).value.fields);
  }
}
