/**
 The E-RAB setup requests that the DRB starter writes by hand (drb.c): three messages built in one
 buffer by copying fixed octets and lengths behind a running offset. The second and third start
 over behind the outer lengths of the first. The NAS messages are arbitrary octets.
 */
module ERabBuilder {
  import opened Bytes

  const PAYLOAD: nat := 256

  /** The fixed octets: initiating message, procedure code, criticality. */
  const HEAD: seq<byte> := [0x00, 0x05, 0x00]

  /** Three IEs: MME UE id 2, eNB UE id (four octets at 13), and the list of E-RABs. */
  const PDU: seq<byte> := [0x00, 0x00, 0x03,
                           0x00, 0x00, 0x00, 0x02, 0x00, 0x02,
                           0x00, 0x08, 0x00, 0x04, 0x80, 0x06, 0x69, 0x2d,
                           0x00, 0x10, 0x00]

  const LIST: seq<byte> := [0x00, 0x00, 0x11, 0x00]

  /** E-RAB id, QoS and transport address; they differ in the first and the last octet. */
  function ItemOctets(k: nat): (r: seq<byte>)
    requires k < 3
    ensures |r| == 14
  {
    [0x0c + 2 * k, 0x00, 0x04, 0x04, 0x0f, 0x80, 0xac, 0x10, 0x02, 0x8d, 0x00, 0x00, 0x00, 0x03 + k]
  }

  /** The eNB UE id as four octets: a length of three and the 24-bit value, most significant octet first. */
  function IdOctets(id: nat): (r: seq<byte>)
    ensures |r| == 4
  {
    [0x80, id / 65536 % 256, id / 256 % 256, id % 256]
  }

  // ----- the lengths, computed once from the first message

  function ItemSize(nas: nat): (r: nat) { (nas + 1 + 14) % 256 }
  function ListSize(nas: nat): (r: nat) { (ItemSize(nas) + 1 + 4) % 256 }
  function PduSize(nas: nat): (r: nat) { (ListSize(nas) + 1 + 20) % 256 }

  /** The octets up to the place where the second and third message start over. */
  function Outer(id: nat, nas0: nat): (r: seq<byte>)
    ensures |r| == 25
  {
    HEAD + [PduSize(nas0)] + PDU[..13] + IdOctets(id) + PDU[17..] + [ListSize(nas0)]
  }

  function Inner(k: nat, nas: seq<byte>): (r: seq<byte>)
    requires k < 3 && |nas| <= 50
    ensures |r| == 20 + |nas|
  {
    LIST + [ItemSize(|nas|)] + ItemOctets(k) + [|nas|] + nas
  }

  /** Message k, whose outer lengths come from the first NAS message. */
  function MessageOctets(id: nat, nas0: nat, k: nat, nas: seq<byte>): (r: seq<byte>)
    requires k < 3 && |nas| <= 50
  {
    Outer(id, nas0) + Inner(k, nas)
  }

  /** `memcpy` behind the running offset. */
  method Append(payload: array<byte>, loaded: nat, octets: seq<byte>) returns (next: nat)
    requires loaded + |octets| <= payload.Length
    modifies payload
    ensures next == loaded + |octets|
    ensures payload[..next] == old(payload[..loaded]) + octets
    ensures payload[next..] == old(payload[next..])
  {
    Put(payload, loaded, octets);
    next := loaded + |octets|;
  }

  method LoadOuter(payload: array<byte>, id: nat, nas0: nat) returns (loaded: nat)
    requires payload.Length == PAYLOAD
    modifies payload
    ensures loaded == 25 && payload[..loaded] == Outer(id, nas0)
  {
    hide IdOctets;
    loaded := Append(payload, 0, HEAD);
    loaded := Append(payload, loaded, [PduSize(nas0)]);
    loaded := AppendWithId(payload, loaded, id);
    loaded := Append(payload, loaded, [ListSize(nas0)]);
  }

  /** The fixed part, whose placeholder for the id is overwritten at once. */
  method AppendWithId(payload: array<byte>, loaded: nat, id: nat) returns (next: nat)
    requires payload.Length == PAYLOAD && loaded == 4
    modifies payload
    ensures next == loaded + 20 && payload[..next] == old(payload[..loaded]) + PDU[..13] + IdOctets(id) + PDU[17..]
  {
    hide IdOctets;
    ghost var front := payload[..loaded];
    next := Append(payload, loaded, PDU);
    ghost var plain := payload[..next];
    assert payload[..17] == plain[..17] && payload[21..][..3] == plain[21..];
    Put(payload, loaded + 13, IdOctets(id));
    assert payload[..next] == payload[..21] + payload[21..][..3];
    Overwritten(payload[..next], plain, front, id);
  }

  /** The id lands on octets 13 to 16 of the fixed part. */
  lemma Overwritten(b: seq<byte>, plain: seq<byte>, front: seq<byte>, id: nat)
    requires |front| == 4 && plain == front + PDU && |b| == |plain|
    requires b == (plain[..17] + IdOctets(id)) + plain[21..]
    ensures b == front + PDU[..13] + IdOctets(id) + PDU[17..]
  {
    assert plain[..17] == front + PDU[..13] && plain[21..] == PDU[17..];
  }

  method LoadInner(payload: array<byte>, start: nat, k: nat, nas: seq<byte>, ghost outer: seq<byte>)
      returns (loaded: nat)
    requires payload.Length == PAYLOAD && k < 3 && |nas| <= 50 && start == |outer| == 25 && payload[..start] == outer
    modifies payload
    ensures loaded == start + |Inner(k, nas)| <= PAYLOAD && payload[..loaded] == outer + Inner(k, nas)
  {
    hide ItemOctets;
    loaded := Append(payload, start, LIST);
    loaded := Append(payload, loaded, [ItemSize(|nas|)]);
    loaded := Append(payload, loaded, ItemOctets(k));
    loaded := Append(payload, loaded, [|nas|]);
    loaded := Append(payload, loaded, nas);
    Regrouped(outer, LIST, [ItemSize(|nas|)], ItemOctets(k), [|nas|], nas);
  }

  lemma Regrouped(o: seq<byte>, a: seq<byte>, b: seq<byte>, c: seq<byte>, d: seq<byte>, x: seq<byte>)
    ensures o + a + b + c + d + x == o + (a + b + c + d + x)
  {
  }

  /** The three messages as they are handed to SCTP, one after the other out of the same buffer. */
  method Build(payload: array<byte>, id: nat, nas: seq<seq<byte>>) returns (sent: seq<seq<byte>>)
    requires payload.Length == PAYLOAD && |nas| == 3 && forall k :: 0 <= k < 3 ==> |nas[k]| <= 50
    modifies payload
    ensures |sent| == 3 && forall k :: 0 <= k < 3 ==> sent[k] == MessageOctets(id, |nas[0]|, k, nas[k])
  {
    hide Outer, Inner;
    var loadedList := LoadOuter(payload, id, |nas[0]|);
    ghost var outer := Outer(id, |nas[0]|);
    sent := [];
    for k := 0 to 3
      invariant |sent| == k && payload[..loadedList] == outer
      invariant forall j :: 0 <= j < k ==> sent[j] == MessageOctets(id, |nas[0]|, j, nas[j])
    {
      var loaded := LoadInner(payload, loadedList, k, nas[k], outer);
      sent := sent + [payload[..loaded]];
      assert payload[..loadedList] == payload[..loaded][..loadedList];
    }
  }

  // ----- reading

  /**
   An octet string behind its one-octet length (section 10.9 of ITU-T X.691): the value and what
   follows.
   */
  datatype Cut = Cut(value: seq<byte>, rest: seq<byte>)

  function ReadOpen(b: seq<byte>): (r: Option<Cut>)
    ensures r.Some? ==> |r.value.value| + |r.value.rest| < |b|
  {
    if b == [] || b[0] >= 128 || |b| < 1 + b[0] then None
    else Some(Cut(b[1..1 + b[0]], b[1 + b[0]..]))
  }

  /** A protocol IE: identifier, criticality and open-type value. */
  datatype Ie = Ie(id: nat, value: seq<byte>)

  datatype IeCut = IeCut(ie: Ie, rest: seq<byte>)

  function ReadIe(b: seq<byte>): (r: Option<IeCut>)
    ensures r.Some? ==> |r.value.rest| < |b|
  {
    if |b| < 3 then None
    else
      match ReadOpen(b[3..])
      case None => None
      case Some(c) =>
        var high: nat := b[0];
        Some(IeCut(Ie(high * 256 + b[1], c.value), c.rest))
  }

  function ReadIes(b: seq<byte>, n: nat): (r: Option<seq<Ie>>)
    decreases n
  {
    if n == 0 then if b == [] then Some([]) else None
    else
      match ReadIe(b)
      case None => None
      case Some(c) =>
        match ReadIes(c.rest, n - 1)
        case None => None
        case Some(more) => Some([c.ie] + more)
  }

  /** What a setup request says: the eNB UE id, the fixed part of the E-RAB item and its NAS message. */
  datatype Request = Request(id: nat, item: seq<byte>, nas: seq<byte>)

  function ReadId(v: seq<byte>): (r: Option<nat>) {
    if |v| != 4 || v[0] != 0x80 then None
    else
      var a: nat, b: nat, c: nat := v[1], v[2], v[3];
      Some(a * 65536 + b * 256 + c)
  }

  /** One item: fixed part, then the NAS message up to the end of the item. */
  function ReadItem(v: seq<byte>): (r: Option<Cut>) {
    if |v| < 14 then None
    else
      match ReadOpen(v[14..])
      case None => None
      case Some(c) => if c.rest != [] then None else Some(Cut(v[..14], c.value))
  }

  function ReadList(v: seq<byte>): (r: Option<Cut>) {
    if |v| < 1 || v[0] != 0 then None
    else
      match ReadIes(v[1..], 1)
      case None => None
      case Some(ies) => if ies[0].id != 17 then None else ReadItem(ies[0].value)
  }

  function ReadBody(v: seq<byte>): (r: Option<Request>) {
    if |v| < 3 || v[..3] != [0, 0, 3] then None
    else
      match ReadIes(v[3..], 3)
      case None => None
      case Some(ies) =>
        if ies[0] != Ie(0, [0, 2]) || ies[1].id != 8 || ies[2].id != 16 then None
        else
          match ReadId(ies[1].value)
          case None => None
          case Some(id) =>
            match ReadList(ies[2].value)
            case None => None
            case Some(c) => Some(Request(id, c.value, c.rest))
  }

  /** The whole message, with nothing left over. */
  function ReadMessage(b: seq<byte>): (r: Option<Request>) {
    if |b| < 3 || b[..3] != [0, 5, 0] then None
    else
      match ReadOpen(b[3..])
      case None => None
      case Some(c) => if c.rest != [] then None else ReadBody(c.value)
  }

  // ----- round trip

  function Open(v: seq<byte>): (r: seq<byte>)
    requires |v| < 128
  {
    [|v|] + v
  }

  function IeOctets(id: nat, v: seq<byte>): (r: seq<byte>)
    requires id < 256 && |v| < 128
  {
    [0, id, 0] + Open(v)
  }

  lemma OpenReads(v: seq<byte>, rest: seq<byte>)
    requires |v| < 128
    ensures ReadOpen(Open(v) + rest) == Some(Cut(v, rest))
  {
    var b := Open(v) + rest;
    assert b[0] == |v| && b[1..1 + |v|] == v && b[1 + |v|..] == rest;
  }

  lemma IeReads(id: nat, v: seq<byte>, rest: seq<byte>)
    requires id < 256 && |v| < 128
    ensures ReadIe(IeOctets(id, v) + rest) == Some(IeCut(Ie(id, v), rest))
  {
    hide ReadOpen, Open;
    var b := IeOctets(id, v) + rest;
    assert b[0] == 0 && b[1] == id && b[3..] == Open(v) + rest;
    OpenReads(v, rest);
  }

  function ItemValue(k: nat, nas: seq<byte>): (r: seq<byte>)
    requires k < 3 && |nas| <= 50
  {
    ItemOctets(k) + Open(nas)
  }

  function ListValue(k: nat, nas: seq<byte>): (r: seq<byte>)
    requires k < 3 && |nas| <= 50
  {
    [0] + IeOctets(17, ItemValue(k, nas))
  }

  function BodyValue(id: nat, k: nat, nas: seq<byte>): (r: seq<byte>)
    requires k < 3 && |nas| <= 50
    ensures |r| == 41 + |nas|
  {
    [0, 0, 3] + IeOctets(0, [0, 2]) + IeOctets(8, IdOctets(id)) + IeOctets(16, ListValue(k, nas))
  }

  lemma ItemReads(k: nat, nas: seq<byte>)
    requires k < 3 && |nas| <= 50
    ensures ReadItem(ItemValue(k, nas)) == Some(Cut(ItemOctets(k), nas))
  {
    hide ReadOpen, ItemOctets, Open;
    var v := ItemValue(k, nas);
    OpenReads(nas, []);
    assert v[..14] == ItemOctets(k) && v[14..] == Open(nas) + [];
  }

  lemma ListReads(k: nat, nas: seq<byte>)
    requires k < 3 && |nas| <= 50
    ensures ReadList(ListValue(k, nas)) == Some(Cut(ItemOctets(k), nas))
  {
    hide ReadIe, IeOctets, ReadItem, ItemOctets;
    var v, item := ListValue(k, nas), ItemValue(k, nas);
    assert |item| < 128;
    IeReads(17, item, []);
    assert v[1..] == IeOctets(17, item) + [];
    assert ReadIes([], 0) == Some([]);
    ItemReads(k, nas);
  }

  lemma IdReads(id: nat)
    ensures ReadId(IdOctets(id)) == Some(id % 0x100_0000)
  {
    var c, y := id % 256, id / 256;
    var b, z := y % 256, y / 256;
    var a, q := z % 256, z / 256;
    assert id / 65536 == z;
    assert id == 0x100_0000 * q + (a * 65536 + b * 256 + c);
    Low24(q, a * 65536 + b * 256 + c);
  }

  lemma Low24(q: nat, x: nat)
    requires x < 0x100_0000
    ensures (0x100_0000 * q + x) % 0x100_0000 == x
  {
  }

  lemma IesRead(id: nat, v: seq<byte>, rest: seq<byte>, n: nat, more: seq<Ie>)
    requires id < 256 && |v| < 128 && ReadIes(rest, n) == Some(more)
    ensures ReadIes(IeOctets(id, v) + rest, n + 1) == Some([Ie(id, v)] + more)
  {
    hide ReadIe, IeOctets;
    IeReads(id, v, rest);
  }

  lemma BodyReads(id: nat, k: nat, nas: seq<byte>)
    requires k < 3 && |nas| <= 50
    ensures ReadBody(BodyValue(id, k, nas)) == Some(Request(id % 0x100_0000, ItemOctets(k), nas))
  {
    hide ReadIe, IeOctets, ReadList, ItemOctets, ReadId, IdOctets;
    var v, list := BodyValue(id, k, nas), ListValue(k, nas);
    assert |list| < 128 by { ListSizeIs(k, nas); }
    var i1, i2, i3 := IeOctets(0, [0, 2]), IeOctets(8, IdOctets(id)), IeOctets(16, list);
    assert v[..3] == [0, 0, 3] && v[3..] == i1 + (i2 + i3);
    var none: seq<Ie> := [];
    assert ReadIes([], 0) == Some(none);
    IesRead(16, list, [], 0, []);
    assert i3 + [] == i3;
    IesRead(8, IdOctets(id), i3, 1, [Ie(16, list)] + none);
    IesRead(0, [0, 2], i2 + i3, 2, [Ie(8, IdOctets(id))] + ([Ie(16, list)] + none));
    hide ReadIes;
    IdReads(id);
    ListReads(k, nas);
  }

  lemma ListSizeIs(k: nat, nas: seq<byte>)
    requires k < 3 && |nas| <= 50
    ensures |ListValue(k, nas)| == 20 + |nas|
  {
  }

  /** With equal lengths the hand-written octets are the nested encoding. */
  lemma MessageIsNested(id: nat, k: nat, nas: seq<byte>)
    requires k < 3 && |nas| <= 50
    ensures MessageOctets(id, |nas|, k, nas) == HEAD + Open(BodyValue(id, k, nas))
  {
    InnerIsList(k, nas);
    BodyIs(id, k, nas);
    OuterIs(id, |nas|);
    hide ItemOctets, IdOctets, Inner, ListValue, Outer, BodyValue;
    var list := ListValue(k, nas);
    assert HEAD + [41 + |nas|] + Fixed(id) + [20 + |nas|] + list ==
        HEAD + ([41 + |nas|] + (Fixed(id) + [20 + |nas|] + list));
  }

  /** What lies between the two outer lengths. */
  function Fixed(id: nat): (r: seq<byte>) {
    [0, 0, 3, 0, 0, 0, 2, 0, 2, 0, 8, 0, 4] + IdOctets(id) + [0, 16, 0]
  }

  lemma InnerIsList(k: nat, nas: seq<byte>)
    requires k < 3 && |nas| <= 50
    ensures Inner(k, nas) == ListValue(k, nas)
  {
    hide ItemOctets;
    var n := |nas|;
    assert ListValue(k, nas) == [0] + ([0, 17, 0] + ([15 + n] + (ItemOctets(k) + ([n] + nas))));
  }

  lemma OuterIs(id: nat, n: nat)
    requires n <= 50
    ensures Outer(id, n) == HEAD + [41 + n] + Fixed(id) + [20 + n]
  {
    hide IdOctets;
    assert PDU[..13] == [0, 0, 3, 0, 0, 0, 2, 0, 2, 0, 8, 0, 4] && PDU[17..] == [0, 16, 0];
  }

  lemma BodyIs(id: nat, k: nat, nas: seq<byte>)
    requires k < 3 && |nas| <= 50
    ensures |ListValue(k, nas)| == 20 + |nas| && BodyValue(id, k, nas) == Fixed(id) + [20 + |nas|] + ListValue(k, nas)
  {
    hide IdOctets, ListValue;
    ListSizeIs(k, nas);
    var list := ListValue(k, nas);
    assert BodyValue(id, k, nas) ==
           [0, 0, 3] + ([0, 0, 0] + ([2] + [0, 2])) + ([0, 8, 0] + ([4] + IdOctets(id))) +
               ([0, 16, 0] + ([20 + |nas|] + list));
  }

  /**
   Each of the three messages, read through the nested lengths, consumes exactly what was loaded and
   yields the id (modulo 2^24), the bearer item and the NAS octets if and only if its NAS message is
   as long as the first one's, whose outer lengths it reuses.
   */
  lemma MessageRoundTrip(id: nat, nas0: nat, k: nat, nas: seq<byte>)
    requires k < 3 && |nas| <= 50 && nas0 <= 50
    ensures ReadMessage(MessageOctets(id, nas0, k, nas)) == Some(Request(id % 0x100_0000, ItemOctets(k), nas)) <==>
        |nas| == nas0
    ensures ReadMessage(MessageOctets(id, nas0, k, nas)).Some? ==> |nas| == nas0
  {
    var b := MessageOctets(id, nas0, k, nas);
    if |nas| == nas0 {
      hide ReadBody, BodyValue, MessageOctets, ItemOctets, Open, ReadOpen;
      MessageIsNested(id, k, nas);
      var body := BodyValue(id, k, nas);
      OpenReads(body, []);
      assert b[..3] == HEAD && b[3..] == Open(body) + [];
      BodyReads(id, k, nas);
    } else {
      WrongLength(id, nas0, k, nas);
    }
  }

  /** The outer length announces more or fewer octets than follow. */
  lemma WrongLength(id: nat, nas0: nat, k: nat, nas: seq<byte>)
    requires k < 3 && |nas| <= 50 && nas0 <= 50 && |nas| != nas0
    ensures ReadMessage(MessageOctets(id, nas0, k, nas)) == None
  {
    OuterIs(id, nas0);
    hide Inner, IdOctets, Outer, ReadBody;
    var b := MessageOctets(id, nas0, k, nas);
    assert b[3] == 41 + nas0 && |b| == 45 + |nas|;
  }

  /** A second NAS message one octet shorter than the first: its outer lengths are one too large. */
  lemma ShorterSecondMessage(id: nat)
    ensures ReadMessage(MessageOctets(id, 3, 1, [5, 6])) == None
  {
    hide ReadMessage, MessageOctets;
    MessageRoundTrip(id, 3, 1, [5, 6]);
  }

  // ----- what the item says

  /** E-RAB id of an item: four bits behind three of the preamble. */
  function ErabId(item: seq<byte>): (r: nat)
    requires |item| == 14
  {
    item[0] / 2 % 16
  }

  /** GTP tunnel id: the last four octets, most significant first. */
  function TunnelId(item: seq<byte>): (r: nat)
    requires |item| == 14
  {
    var a: nat, b: nat, c: nat, d: nat := item[10], item[11], item[12], item[13];
    a * 16777216 + b * 65536 + c * 256 + d
  }

  /**
   What the receiver of the three messages learns if their NAS messages are equally long: E-RABs 6, 7 and 8
   with tunnels 3, 4 and 5 at 172.16.2.141, for the UE with this id, each with its own NAS message.
   */
  lemma SetupRequests(id: nat, nas: seq<seq<byte>>, k: nat)
    requires |nas| == 3 && (forall j :: 0 <= j < 3 ==> |nas[j]| == |nas[0]| <= 50) && k < 3
    ensures var r := ReadMessage(MessageOctets(id, |nas[0]|, k, nas[k]));
      && r.Some? && r.value.id == id % 0x100_0000 && r.value.nas == nas[k] && |r.value.item| == 14
      && ErabId(r.value.item) == 6 + k && TunnelId(r.value.item) == 3 + k
      && r.value.item[6..10] == [172, 16, 2, 141]
  {
    hide ReadMessage, MessageOctets;
    MessageRoundTrip(id, |nas[0]|, k, nas[k]);
  }
}
