/** Octets, buffers and the small sequence algebra shared by the other modules. */
module Bytes {

  /** The source's `unsigned char` / `uint8_t`; conversions truncate with `% 256`. */
  type byte = x: int | 0 <= x < 256

  datatype Option<+T> = None | Some(value: T)

  /** The octets of all pieces, in order. */
  function Concat(pieces: seq<seq<byte>>): (r: seq<byte>) {
    if pieces == [] then [] else Concat(pieces[..|pieces| - 1]) + pieces[|pieces| - 1]
  }

  lemma {:induction false} ConcatAppend(a: seq<seq<byte>>, b: seq<seq<byte>>)
    ensures Concat(a + b) == Concat(a) + Concat(b)
    decreases |b|
  {
    if b == [] {
      assert a + b == a;
    } else {
      var n := |b| - 1;
      assert (a + b)[..|a + b| - 1] == a + b[..n];
      ConcatAppend(a, b[..n]);
    }
  }

  lemma {:induction false} ConcatFirst(a: seq<seq<byte>>)
    requires a != []
    ensures Concat(a) == a[0] + Concat(a[1..])
  {
    assert a == [a[0]] + a[1..];
    ConcatAppend([a[0]], a[1..]);
    var first := [a[0]];
    assert first[..0] == [];
    assert Concat(first) == a[0];
  }

  function Lengths(pieces: seq<seq<byte>>): (r: seq<nat>)
    ensures |r| == |pieces|
    ensures forall i :: 0 <= i < |r| ==> r[i] == |pieces[i]|
  {
    seq(|pieces|, i requires 0 <= i < |pieces| => |pieces[i]|)
  }

  function Sum(ns: seq<nat>): (r: nat) {
    if ns == [] then 0 else Sum(ns[..|ns| - 1]) + ns[|ns| - 1]
  }

  lemma {:induction false} SumAppend(a: seq<nat>, b: seq<nat>)
    ensures Sum(a + b) == Sum(a) + Sum(b)
    decreases |b|
  {
    if b == [] {
      assert a + b == a;
    } else {
      var n := |b| - 1;
      assert (a + b)[..|a + b| - 1] == a + b[..n];
      SumAppend(a, b[..n]);
    }
  }

  function Reversed<T>(s: seq<T>): (r: seq<T>) {
    if s == [] then [] else Reversed(s[1..]) + [s[0]]
  }

  lemma {:induction false} ReversedLast<T>(s: seq<T>)
    requires s != []
    ensures Reversed(s) == [s[|s| - 1]] + Reversed(s[..|s| - 1])
    decreases |s|
  {
    if |s| > 1 {
      ReversedLast(s[1..]);
      assert s[1..][..|s| - 2] == s[..|s| - 1][1..];
    } else {
      assert Reversed(s[1..]) == [] && Reversed(s[..0]) == [];
    }
  }

  function Zeros(n: nat): (r: seq<byte>)
    ensures |r| == n
    ensures forall i :: 0 <= i < n ==> r[i] == 0
  {
    seq(n, i => 0)
  }

  function Overwritten(s: seq<byte>, at: nat, octets: seq<byte>): (r: seq<byte>)
    requires at + |octets| <= |s|
    ensures |r| == |s|
  {
    s[..at] + octets + s[at + |octets|..]
  }

  /** `memcpy`/`memmove` of `n` octets; the source range is read before anything is written. */
  method Move(dst: array<byte>, at: nat, src: array<byte>, from: nat, n: nat)
    requires at + n <= dst.Length && from + n <= src.Length
    modifies dst
    ensures dst[..] == Overwritten(old(dst[..]), at, old(src[..])[from..from + n])
  {
    forall i | 0 <= i < n {
      dst[at + i] := src[from + i];
    }
  }

  /** Writes octets behind the first `at` ones. */
  method Put(dst: array<byte>, at: nat, octets: seq<byte>)
    requires at + |octets| <= dst.Length
    modifies dst
    ensures dst[..at + |octets|] == old(dst[..at]) + octets
    ensures dst[at + |octets|..] == old(dst[at + |octets|..])
  {
    forall k | 0 <= k < |octets| {
      dst[at + k] := octets[k];
    }
  }
}
