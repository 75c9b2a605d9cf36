/**
 The header that the downlink scheduler rebuilds when it merges several UMD PDUs into one
 (eNB_scheduler_dlsch.c): every data field gets an E/LI field with E set, alternating
 between an octet-aligned and a half-octet-aligned form, and afterwards the last E/LI field
 is taken out and the E bit before it is cleared.
 */
module RlcHeader {
  import opened Bytes
  import opened RlcUmd

  /** Size of the source's `rlc_header`. */
  const HEADER_ROOM: nat := 100

  /** Most fields whose E/LI entries all lie inside `rlc_header`. */
  const MAX_FIELDS: nat := 65

  /** `header_pos` after n fields have been written. */
  function HeaderPos(n: nat): (r: nat) {
    2 + 3 * n / 2
  }

  /** Writes the E/LI entry of field number n, with the truncation of `unsigned char`. */
  function PutLi(h: seq<byte>, n: nat, len: nat): (r: seq<byte>)
    requires |h| == HEADER_ROOM && n < MAX_FIELDS
    ensures |r| == HEADER_ROOM
  {
    var pos := HeaderPos(n);
    if n % 2 == 0 then
      h[pos := (128 + len / 16) % 256][pos + 1 := len % 16 * 16]
    else
      var old_octet: int := h[pos];
      h[pos := (old_octet + 8 + len / 256) % 256][pos + 1 := len % 256]
  }

  /** The header buffer after the entries of all fields, last one included. */
  function PutAll(lens: seq<nat>): (r: seq<byte>)
    requires |lens| <= MAX_FIELDS
    ensures |r| == HEADER_ROOM
  {
    if lens == [] then Zeros(HEADER_ROOM)
    else PutLi(PutAll(lens[..|lens| - 1]), |lens| - 1, lens[|lens| - 1])
  }

  /** Removal of the last entry. */
  function DropLast(h: seq<byte>, n: nat): (r: seq<byte>)
    requires |h| == HEADER_ROOM && 0 < n <= MAX_FIELDS
    ensures |r| == HEADER_ROOM
  {
    var pos := HeaderPos(n);
    if n % 2 == 0 then
      h[pos - 3 := h[pos - 3] % 128][pos - 2 := h[pos - 2] / 16 * 16][pos - 1 := 0]
    else
      var g := if n > 1 then h[pos - 3 := ClearBit3(h[pos - 3])] else h;
      g[pos - 1 := 0][pos := 0]
  }

  /** `x & 0xf7` */
  function ClearBit3(x: byte): (r: byte)
    ensures r / 16 == x / 16 && r % 16 == x % 16 % 8
  {
    x / 16 * 16 + x % 8
  }

  /** The two fixed octets: FI, E and SN. */
  function FixedPart(n: nat, fi: nat, sn: nat): (r: seq<byte>)
    requires fi < 4 && sn < 1024
    ensures |r| == 2
  {
    [fi * 8 + (if n > 1 then 4 else 0) + sn / 256, sn % 256]
  }

  /** The rebuilt header of a PDU with fields of these lengths. */
  function MergedHeader(lens: seq<nat>, fi: nat, sn: nat): (r: seq<byte>)
    requires 0 < |lens| <= MAX_FIELDS && fi < 4 && sn < 1024
    ensures |r| == HeaderLen(|lens| - 1)
  {
    var n := |lens|;
    FixedPart(n, fi, sn) + DropLast(PutAll(lens), n)[2..HeaderPos(n) - 1]
  }

  /** The merged PDU: rebuilt header, then the data of all fields. */
  function MergedPdu(fields: seq<seq<byte>>, fi: nat, sn: nat): (r: seq<byte>)
    requires 0 < |fields| <= MAX_FIELDS && fi < 4 && sn < 1024
  {
    MergedHeader(Lengths(fields), fi, sn) + Concat(fields)
  }

  /**
   What the last length adds to the low four bits of the entry before it: an entry in the
   half-octet-aligned form is added to an octet it shares, and a length of 2048 or more
   carries out of its half.
   */
  function Carry(n: nat, last: nat): (r: nat) {
    if n % 2 == 0 then (8 + last / 256) / 16 % 16 else 0
  }

  /** Exactly the field lengths for which the rebuilt header can be read back. */
  predicate Representable(lens: seq<nat>) {
    && 0 < |lens| <= MAX_FIELDS
    && (forall i :: 0 <= i < |lens| - 1 ==> lens[i] < 2048)
    && Carry(|lens|, lens[|lens| - 1]) == 0
  }

  // ----- the entries as they are written

  predicate AllShort(lens: seq<nat>) {
    forall i :: 0 <= i < |lens| ==> lens[i] < 2048
  }

  /** An aligned entry: its three 4-bit units, and an empty half after it. */
  lemma PutEven(h: seq<byte>, n: nat, len: nat)
    requires |h| == HEADER_ROOM && n < MAX_FIELDS && n % 2 == 0 && len < 2048
    ensures var r := PutLi(h, n, len);
      HasEli(r, n) && Eli(r, n) == 2048 + len && Nibble(r, 3 * n + 3) == 0
  {
    var r := PutLi(h, n, len);
    var m := n / 2;
    assert n == 2 * m;
    assert 3 * n / 2 == 3 * m && (3 * n + 1) / 2 == 3 * m && (3 * n + 2) / 2 == 3 * m + 1 &&
        (3 * n + 3) / 2 == 3 * m + 1;
    assert r[2 + 3 * m] == 128 + len / 16;
    assert Nibble(r, 3 * n) == 8 + len / 256;
    assert Nibble(r, 3 * n + 1) == len / 16 % 16;
    assert Nibble(r, 3 * n + 2) == len % 16;
  }

  /** A half-octet-aligned entry, written over an empty half. */
  lemma PutOdd(h: seq<byte>, n: nat, len: nat)
    requires |h| == HEADER_ROOM && n < MAX_FIELDS && n % 2 == 1 && len < 2048
    requires Nibble(h, 3 * n) == 0
    ensures var r := PutLi(h, n, len);
      HasEli(r, n) && Eli(r, n) == 2048 + len && Nibble(r, 3 * n - 1) == Nibble(h, 3 * n - 1)
  {
    var r, m := PutLi(h, n, len), n / 2;
    OddUnits(h, m);
    OddUnits(r, m);
    OddOctets(h, m, len);
    var o: int := h[3 * m + 3];
    Mod16(o / 16, 8 + len / 256);
    LowOctet(len);
  }

  /** Where the 4-bit units around field 2 * m + 1 lie. */
  lemma OddUnits(h: seq<byte>, m: nat)
    requires |h| == HEADER_ROOM && 2 * m + 1 < MAX_FIELDS
    ensures var n := 2 * m + 1;
      && HasEli(h, n) && Nibble(h, 3 * n - 1) == h[3 * m + 3] / 16 && Nibble(h, 3 * n) == h[3 * m + 3] % 16
      && Nibble(h, 3 * n + 1) == h[3 * m + 4] / 16 && Nibble(h, 3 * n + 2) == h[3 * m + 4] % 16
  {
    var n := 2 * m + 1;
    assert (3 * n - 1) / 2 == 3 * m + 1 && 3 * n / 2 == 3 * m + 1;
    assert (3 * n + 1) / 2 == 3 * m + 2 && (3 * n + 2) / 2 == 3 * m + 2;
  }

  lemma OddOctets(h: seq<byte>, m: nat, len: nat)
    requires |h| == HEADER_ROOM && 2 * m + 1 < MAX_FIELDS && len < 2048 && h[3 * m + 3] % 16 == 0
    ensures var r := PutLi(h, 2 * m + 1, len); var o: int := h[3 * m + 3];
      r[3 * m + 3] == o + 8 + len / 256 && r[3 * m + 4] == len % 256
  {
    assert HeaderPos(2 * m + 1) == 3 * m + 3;
    assert len / 256 < 8;
    var o: int := h[3 * m + 3];
    assert o <= 240;
  }

  lemma LowOctet(len: nat)
    ensures var low := len % 256; low / 16 == len / 16 % 16 && low % 16 == len % 16
    ensures len == len / 256 * 256 + len / 16 % 16 * 16 + len % 16
  {
  }

  /** A 4-bit unit depends on one octet only. */
  lemma NibbleFrame(a: seq<byte>, b: seq<byte>, i: nat)
    requires 2 + i / 2 < |a| && 2 + i / 2 < |b| && a[2 + i / 2] == b[2 + i / 2]
    ensures Nibble(a, i) == Nibble(b, i)
  {
  }

  /** Earlier entries survive a later one. */
  lemma PutFrame(h: seq<byte>, n: nat, len: nat, k: nat)
    requires |h| == HEADER_ROOM && n < MAX_FIELDS && len < 2048 && k < n
    requires n % 2 == 1 ==> Nibble(h, 3 * n) == 0
    ensures var r := PutLi(h, n, len); HasEli(r, k) && Eli(r, k) == Eli(h, k)
  {
    var r := PutLi(h, n, len);
    assert forall i :: 0 <= i < HeaderPos(n) ==> r[i] == h[i];
    NibbleFrame(r, h, 3 * k);
    NibbleFrame(r, h, 3 * k + 1);
    if n % 2 == 1 && k == n - 1 {
      PutOdd(h, n, len);
    } else {
      assert (3 * k + 2) / 2 < 3 * n / 2;
      NibbleFrame(r, h, 3 * k + 2);
    }
  }

  /** Entry k holds length `len` with E set. */
  predicate Entry(h: seq<byte>, k: nat, len: nat) {
    HasEli(h, k) && Eli(h, k) == 2048 + len
  }

  /** Every entry reads back with E set, and an odd count leaves an empty half behind. */
  predicate ReadsBack(h: seq<byte>, lens: seq<nat>) {
    && |h| == HEADER_ROOM
    && |lens| <= MAX_FIELDS
    && (forall k :: 0 <= k < |lens| ==> Entry(h, k, lens[k]))
    && (|lens| % 2 == 1 ==> Nibble(h, 3 * |lens|) == 0)
  }

  lemma PutEntry(h: seq<byte>, lens: seq<nat>, len: nat, k: nat)
    requires ReadsBack(h, lens) && |lens| < MAX_FIELDS && len < 2048 && k <= |lens|
    ensures Entry(PutLi(h, |lens|, len), k, (lens + [len])[k])
  {
    var n := |lens|;
    if k < n {
      assert Entry(h, k, lens[k]);
      PutFrame(h, n, len, k);
    } else if n % 2 == 0 {
      PutEven(h, n, len);
    } else {
      PutOdd(h, n, len);
    }
  }

  lemma PutStep(h: seq<byte>, lens: seq<nat>, len: nat)
    requires ReadsBack(h, lens) && |lens| < MAX_FIELDS && len < 2048
    ensures ReadsBack(PutLi(h, |lens|, len), lens + [len])
  {
    forall k | 0 <= k < |lens| + 1 ensures Entry(PutLi(h, |lens|, len), k, (lens + [len])[k]) {
      PutEntry(h, lens, len, k);
    }
    if |lens| % 2 == 0 { PutEven(h, |lens|, len); }
  }

  lemma EmptyReadsBack()
    ensures ReadsBack(Zeros(HEADER_ROOM), [])
  {
  }

  lemma {:induction false} PutAllReadsBack(lens: seq<nat>)
    requires |lens| <= MAX_FIELDS && AllShort(lens)
    ensures ReadsBack(PutAll(lens), lens)
  {
    hide PutLi, ReadsBack;
    if lens == [] {
      assert ReadsBack(Zeros(HEADER_ROOM), []) by { EmptyReadsBack(); }
    } else {
      var n := |lens| - 1;
      PutAllReadsBack(lens[..n]);
      PutStep(PutAll(lens[..n]), lens[..n], lens[n]);
      assert lens[..n] + [lens[n]] == lens;
    }
  }

  // ----- taking the last entry out

  /** The length that the new last entry shows: the true one, unless the removed length carried. */
  function ShownLast(n: nat, len: nat, last: nat): (r: nat)
    ensures Carry(n, last) == 0 ==> r == len
    ensures Carry(n, last) != 0 ==> r != len
    ensures len < 2048 ==> r < 2048
  {
    len / 16 * 16 + (len % 16 + Carry(n, last)) % 16
  }

  /** Odd count: the entry taken out is aligned, so it leaves its neighbour's octets alone. */
  lemma DropOdd(h: seq<byte>, lens: seq<nat>, last: nat)
    requires ReadsBack(h, lens) && |lens| < MAX_FIELDS && |lens| % 2 == 0
    ensures var n := |lens| + 1; var g := DropLast(PutLi(h, n - 1, last), n);
      && (forall k :: 0 <= k < n - 2 ==> Entry(g, k, lens[k]))
      && (n >= 2 ==> HasEli(g, n - 2) && Eli(g, n - 2) == lens[n - 2])
  {
    hide Entry, Eli;
    var n := |lens| + 1;
    if n >= 2 {
      var g := DropLast(PutLi(h, n - 1, last), n);
      var m := (n - 1) / 2;
      assert n == 2 * m + 1;
      DropOddOctets(h, m, last);
      forall k | 0 <= k < n - 2 ensures Entry(g, k, lens[k]) {
        assert Entry(h, k, lens[k]);
        OddFrame(h, g, m, k, lens[k]);
      }
      assert Entry(h, n - 2, lens[n - 2]);
      OddShown(h, g, m, lens[n - 2]);
    }
  }

  /** What the removal does to the octets, for n == 2 * m + 1. */
  predicate OddDropped(h: seq<byte>, g: seq<byte>, m: nat) {
    && |h| == |g| == HEADER_ROOM && 0 < m && 2 * m < MAX_FIELDS
    && (forall i :: 0 <= i < 3 * m + 2 && i != 3 * m ==> g[i] == h[i])
    && g[3 * m] == ClearBit3(h[3 * m])
  }

  lemma DropOddOctets(h: seq<byte>, m: nat, last: nat)
    requires |h| == HEADER_ROOM && 0 < m && 2 * m < MAX_FIELDS
    ensures OddDropped(h, DropLast(PutLi(h, 2 * m, last), 2 * m + 1), m)
  {
    assert HeaderPos(2 * m + 1) == 3 * m + 3 && HeaderPos(2 * m) == 3 * m + 2;
  }

  lemma OddFrame(h: seq<byte>, g: seq<byte>, m: nat, k: nat, len: nat)
    requires OddDropped(h, g, m) && k + 1 < 2 * m && Entry(h, k, len)
    ensures Entry(g, k, len)
  {
    SharedHalf(g, h, m, 3 * k);
    SharedHalf(g, h, m, 3 * k + 1);
    SharedHalf(g, h, m, 3 * k + 2);
  }

  /** Only the low half of the octet with the cleared bit differs. */
  lemma SharedHalf(g: seq<byte>, h: seq<byte>, m: nat, i: nat)
    requires OddDropped(h, g, m) && i < 6 * m - 3
    ensures Nibble(g, i) == Nibble(h, i)
  {
    if 2 + i / 2 == 3 * m {
      assert i == 6 * m - 4;
    } else {
      NibbleFrame(g, h, i);
    }
  }

  lemma OddShown(h: seq<byte>, g: seq<byte>, m: nat, len: nat)
    requires OddDropped(h, g, m) && Entry(h, 2 * m - 1, len)
    ensures HasEli(g, 2 * m - 1) && Eli(g, 2 * m - 1) == len
  {
    var i := 6 * m - 3;
    assert i / 2 == 3 * m - 2 && (i + 1) / 2 == 3 * m - 1 && (i + 2) / 2 == 3 * m - 1;
    NibbleFrame(g, h, i + 1);
    NibbleFrame(g, h, i + 2);
    assert Nibble(g, i) == Nibble(h, i) % 8;
    ClearE(Nibble(h, i), Nibble(h, i + 1), Nibble(h, i + 2), len, 0);
  }

  /** Clearing E, with `c` added to the last unit. */
  lemma ClearE(n0: nat, n1: nat, n2: nat, len: nat, c: nat)
    requires n0 < 16 && n1 < 16 && n2 < 16 && n0 * 256 + n1 * 16 + n2 == 2048 + len
    ensures n0 % 8 * 256 + n1 * 16 + (n2 + c) % 16 == len / 16 * 16 + (len % 16 + c) % 16
    ensures c == 0 ==> n0 % 8 * 256 + n1 * 16 + n2 == len
  {
    assert n0 >= 8;
    Mod16(16 * (n0 - 8) + n1, n2);
  }

  /** Even count: the entry taken out shared an octet with its neighbour. */
  lemma DropEven(h: seq<byte>, lens: seq<nat>, last: nat)
    requires ReadsBack(h, lens) && |lens| < MAX_FIELDS && |lens| % 2 == 1
    ensures var n := |lens| + 1; var g := DropLast(PutLi(h, n - 1, last), n);
      && (forall k :: 0 <= k < n - 2 ==> Entry(g, k, lens[k]))
      && HasEli(g, n - 2) && Eli(g, n - 2) == ShownLast(n, lens[n - 2], last)
  {
    hide Entry, Eli, ShownLast;
    var n := |lens| + 1;
    var g := DropLast(PutLi(h, n - 1, last), n);
    var m := n / 2;
    assert n == 2 * m;
    assert h[3 * m] % 16 == 0 by { assert (3 * |lens|) / 2 == 3 * m - 2; }
    DropEvenOctets(h, m, last);
    forall k | 0 <= k < n - 2 ensures Entry(g, k, lens[k]) {
      assert Entry(h, k, lens[k]);
      EvenFrame(h, g, m, k, lens[k]);
    }
    assert Entry(h, n - 2, lens[n - 2]);
    EvenShown(h, g, m, lens[n - 2], last);
  }

  /** What the removal does to the octets, for n == 2 * m. */
  predicate EvenDropped(h: seq<byte>, g: seq<byte>, m: nat, last: nat) {
    && |h| == |g| == HEADER_ROOM && 0 < m && 2 * m <= MAX_FIELDS
    && (forall i :: 0 <= i < 3 * m - 1 ==> g[i] == h[i])
    && g[3 * m - 1] == h[3 * m - 1] % 128
    && g[3 * m] / 16 == (h[3 * m] / 16 + Carry(2 * m, last)) % 16
  }

  lemma DropEvenOctets(h: seq<byte>, m: nat, last: nat)
    requires |h| == HEADER_ROOM && 0 < m && 2 * m <= MAX_FIELDS && h[3 * m] % 16 == 0
    ensures EvenDropped(h, DropLast(PutLi(h, 2 * m - 1, last), 2 * m), m, last)
  {
    assert HeaderPos(2 * m) == 3 * m + 2 && HeaderPos(2 * m - 1) == 3 * m;
    var o: int := h[3 * m];
    HalfAdd(o / 16, 8 + last / 256);
  }

  lemma EvenFrame(h: seq<byte>, g: seq<byte>, m: nat, k: nat, len: nat)
    requires |h| == |g| == HEADER_ROOM && 0 < m && 2 * m <= MAX_FIELDS && k + 2 < 2 * m
    requires forall i :: 0 <= i < 3 * m - 1 ==> g[i] == h[i]
    requires Entry(h, k, len)
    ensures Entry(g, k, len)
  {
    NibbleFrame(g, h, 3 * k);
    NibbleFrame(g, h, 3 * k + 1);
    NibbleFrame(g, h, 3 * k + 2);
  }

  lemma EvenShown(h: seq<byte>, g: seq<byte>, m: nat, len: nat, last: nat)
    requires EvenDropped(h, g, m, last)
    requires Entry(h, 2 * m - 2, len)
    ensures HasEli(g, 2 * m - 2) && Eli(g, 2 * m - 2) == ShownLast(2 * m, len, last)
  {
    hide Carry;
    var i := 6 * m - 6;
    assert i / 2 == 3 * m - 3 && (i + 1) / 2 == 3 * m - 3 && (i + 2) / 2 == 3 * m - 2;
    ClearTop(h[3 * m - 1]);
    ClearE(Nibble(h, i), Nibble(h, i + 1), Nibble(h, i + 2), len, Carry(2 * m, last));
  }

  lemma ClearTop(x: byte)
    ensures x % 128 / 16 == x / 16 % 8 && x % 128 % 16 == x % 16
  {
    var q, r := x / 16, x % 16;
    var u, v := q / 8, q % 8;
    assert x == 128 * u + (16 * v + r);
    assert x % 128 == 16 * v + r;
  }

  lemma Mod16(u: nat, v: nat)
    requires v < 16
    ensures (16 * u + v) % 16 == v && (16 * u + v) / 16 == u
  {
  }

  lemma Mod256(u: nat, w: nat)
    requires w < 256
    ensures (256 * u + w) % 256 == w
  {
  }

  /** Addition into an octet whose low half is empty. */
  lemma HalfAdd(a: nat, t: nat)
    ensures (16 * a + t) % 256 / 16 == (a + t / 16 % 16) % 16
  {
    var q, r := t / 16, t % 16;
    var x, y := q / 16, q % 16;
    var u, v := (a + y) / 16, (a + y) % 16;
    Mod256(x + u, 16 * v + r);
    assert 16 * a + t == 256 * (x + u) + (16 * v + r);
    Mod16(v, r);
  }
}
