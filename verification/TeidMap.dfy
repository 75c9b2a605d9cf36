/**
 TEIDs from the eNB to the packet terminal: the ICM task sends the TEID of every new bearer as
 four octets in host order (icm.c), the terminal stores three of them at a time and writes them
 into the GTP header of downlink packets, by UDP source port (packet_terminal.h). The host is
 little-endian.
 */
module TeidMap {
  import opened Bytes

  const MAX_DRB: nat := 3
  const BUFFSIZE: nat := 2048
  const FIRST_PORT: nat := 6001
  const U32: nat := 0x1_0000_0000

  type teid = x: nat | x < U32

  // ----- byte order

  /** A 32-bit value in the memory of the host. */
  function HostOctets(x: teid): (r: seq<byte>)
    ensures |r| == 4
  {
    [x % 256, x / 256 % 256, x / 65536 % 256, x / 16777216]
  }

  function FromHost(b: seq<byte>): (r: teid)
    requires |b| == 4
  {
    var o0: nat, o1: nat, o2: nat, o3: nat := b[0], b[1], b[2], b[3];
    o0 + o1 * 256 + o2 * 65536 + o3 * 16777216
  }

  /** Network order: most significant octet first (TEID field, section 5.1 of 3GPP TS 29.281). */
  function NetworkOctets(x: teid): (r: seq<byte>)
    ensures |r| == 4
  {
    [x / 16777216, x / 65536 % 256, x / 256 % 256, x % 256]
  }

  /** `htonl` on a little-endian host. */
  function Htonl(x: teid): (r: teid) {
    FromHost(NetworkOctets(x))
  }

  /** Read as four digits to the base 256, most significant first, they are the value. */
  lemma NetworkOrder(x: teid)
    ensures var o := NetworkOctets(x); var a: nat, b: nat, c: nat, d: nat := o[0], o[1], o[2], o[3];
      a * 16777216 + b * 65536 + c * 256 + d == x
  {
    HostRoundTrip(x);
    assert HostOctets(x) == [NetworkOctets(x)[3], NetworkOctets(x)[2], NetworkOctets(x)[1], NetworkOctets(x)[0]];
  }

  lemma FourDigits(d0: byte, d1: byte, d2: byte, d3: byte)
    ensures HostOctets(FromHost([d0, d1, d2, d3])) == [d0, d1, d2, d3]
  {
    var x := FromHost([d0, d1, d2, d3]);
    var o1: nat, o2: nat, o3: nat := d1, d2, d3;
    assert x == d0 + 256 * (o1 + 256 * (o2 + 256 * o3));
    var y := o1 + 256 * (o2 + 256 * o3);
    assert x / 256 == y && x % 256 == d0;
    var z := o2 + 256 * o3;
    assert y / 256 == z && y % 256 == d1;
    assert x / 65536 == z && x / 16777216 == z / 256;
  }

  lemma HostRoundTrip(x: teid)
    ensures FromHost(HostOctets(x)) == x
  {
    var y := x / 256;
    var z := y / 256;
    assert x == 256 * y + x % 256 && y == 256 * z + y % 256 && z == 256 * (z / 256) + z % 256;
    assert x / 65536 == z && x / 16777216 == z / 256;
  }

  /** Storing `htonl` of a value and copying it out of memory gives network order. */
  lemma StoredIsNetworkOrder(x: teid)
    ensures HostOctets(Htonl(x)) == NetworkOctets(x)
  {
    FourDigits(x / 16777216, x / 65536 % 256, x / 256 % 256, x % 256);
  }

  // ----- the terminal

  datatype Terminal = Terminal(teids: seq<teid>, index: nat, counter: seq<nat>, running: bool, buffer: seq<byte>)

  predicate Valid(t: Terminal) {
    |t.teids| == |t.counter| == MAX_DRB && t.index < MAX_DRB && |t.buffer| == BUFFSIZE
  }

  /** A datagram from the ICM task, or a downlink packet. */
  datatype Datagram = FromIcm(octets: seq<byte>) | Downlink(octets: seq<byte>)

  /** The receive buffer keeps old octets behind a shorter datagram. */
  function Filled(buffer: seq<byte>, octets: seq<byte>): (r: seq<byte>)
    requires |octets| <= |buffer|
    ensures |r| == |buffer|
  {
    octets + buffer[|octets|..]
  }

  /** UDP source port behind 8 octets of GTP and 20 of IP header. */
  function SourcePort(buffer: seq<byte>): (r: nat)
    requires |buffer| >= 30
  {
    var high: nat := buffer[28];
    high * 256 + buffer[29]
  }

  function Configure(t: Terminal, buffer: seq<byte>): (r: Terminal)
    requires Valid(t) && |buffer| == BUFFSIZE
    ensures Valid(r)
  {
    var x := FromHost(buffer[..4]);
    if x == 0 then t.(running := false, buffer := buffer)
    else
      var index := (t.index + 1) % MAX_DRB;
      Terminal(t.teids[t.index := Htonl(x)], index, if index == 0 then [0, 0, 0] else t.counter, t.running, buffer)
  }

  predicate Rewrites(t: Terminal, buffer: seq<byte>)
    requires |buffer| >= 30
  {
    t.index == 0 && FIRST_PORT <= SourcePort(buffer) < FIRST_PORT + MAX_DRB
  }

  function Forward(t: Terminal, buffer: seq<byte>): (r: Terminal)
    requires Valid(t) && |buffer| == BUFFSIZE
    ensures Valid(r)
  {
    if Rewrites(t, buffer) then
      var i := SourcePort(buffer) - FIRST_PORT;
      t.(buffer := buffer[..4] + HostOctets(t.teids[i]) + buffer[8..], counter := t.counter[i := t.counter[i] + 1])
    else t.(buffer := buffer)
  }

  function Handle(t: Terminal, d: Datagram): (r: Terminal)
    requires Valid(t) && |d.octets| <= BUFFSIZE
    ensures Valid(r)
  {
    var buffer := Filled(t.buffer, d.octets);
    match d
    case FromIcm(_) => Configure(t, buffer)
    case Downlink(_) => Forward(t, buffer)
  }

  /** The handler with its buffer patched in place. */
  class DownHandler {
    var teids: seq<teid>
    var index: nat
    var counter: seq<nat>
    var running: bool
    const buffer: array<byte>

    function State(): (r: Terminal)
      reads this, buffer
    {
      Terminal(teids, index, counter, running, buffer[..])
    }

    constructor (garbage: seq<teid>)
      requires |garbage| == MAX_DRB
      ensures Valid(State()) && teids == garbage && index == 0 && counter == [0, 0, 0] && running
    {
      teids, index, counter, running := garbage, 0, [0, 0, 0], true;
      buffer := new byte[BUFFSIZE](_ => 0);
    }

    /** One turn of the loop; what is sent on is the datagram's length of the buffer. */
    method Turn(d: Datagram) returns (sent: Option<seq<byte>>)
      requires Valid(State()) && |d.octets| <= BUFFSIZE
      modifies this, buffer
      ensures State() == Handle(old(State()), d)
      ensures sent == if d.FromIcm? then None else Some(Handle(old(State()), d).buffer[..|d.octets|])
    {
      hide Configure, Forward;
      ghost var t := State();
      Put(buffer, 0, d.octets);
      assert buffer[..] == buffer[..|d.octets|] + buffer[|d.octets|..];
      assert buffer[..] == Filled(t.buffer, d.octets);
      sent := None;
      match d {
        case FromIcm(_) =>
          OnTeid(t);
        case Downlink(_) =>
          OnPacket(t);
          sent := Some(buffer[..|d.octets|]);
      }
    }

    /** The buffer holds a TEID from the ICM task; `t` is the state before it arrived. */
    method OnTeid(ghost t: Terminal)
      requires Valid(t) && Valid(State()) && State() == t.(buffer := buffer[..])
      modifies this
      ensures State() == Configure(t, old(buffer[..]))
    {
      hide FromHost, Htonl;
      var x := FromHost(buffer[..4]);
      if x == 0 {
        running := false;
      } else {
        teids := teids[index := Htonl(x)];
        index := (index + 1) % MAX_DRB;
        if index == 0 {
          counter := [0, 0, 0];
        }
      }
    }

    /** The buffer holds a downlink packet. */
    method OnPacket(ghost t: Terminal)
      requires Valid(t) && Valid(State()) && State() == t.(buffer := buffer[..])
      modifies this, buffer
      ensures State() == Forward(t, old(buffer[..]))
    {
      hide HostOctets;
      if index == 0 {
        var port := SourcePort(buffer[..]);
        if 6001 <= port <= 6003 {
          var i := port - 6001;
          Patch(HostOctets(teids[i]));
          counter := counter[i := counter[i] + 1];
        }
      }
    }

    method Patch(octets: seq<byte>)
      requires |octets| == 4 && buffer.Length == BUFFSIZE
      modifies buffer
      ensures buffer[..] == old(buffer[..])[..4] + octets + old(buffer[..])[8..]
    {
      forall k | 0 <= k < 4 {
        buffer[4 + k] := octets[k];
      }
    }
  }

  // ----- the ICM task

  datatype IcmMessage = ERabSetupResp(gtpTeid: teid) | Terminate | OtherMessage

  /** What the ICM task sends to the terminal for a message from the bus. */
  function IcmDatagram(m: IcmMessage): (r: Option<Datagram>) {
    match m
    case ERabSetupResp(x) => Some(FromIcm(HostOctets(x)))
    case Terminate => Some(FromIcm(HostOctets(0)))
    case OtherMessage => None
  }

  // ----- every run

  /** What reaches the terminal: configuration from the ICM task, or downlink packets. */
  datatype Event = Icm(msg: IcmMessage) | Packet(octets: seq<byte>)

  function Deliver(t: Terminal, e: Event): (r: Terminal)
    requires Valid(t) && (e.Packet? ==> |e.octets| <= BUFFSIZE)
    ensures Valid(r)
  {
    match e
    case Icm(m) => (match IcmDatagram(m) case None => t case Some(d) => Handle(t, d))
    case Packet(octets) => Handle(t, Downlink(octets))
  }

  /** Packets fit the buffer, and nothing is handled once a zero TEID has arrived. */
  predicate IsRun(t: Terminal, events: seq<Event>)
    requires Valid(t)
    decreases |events|
  {
    events == [] ||
    ( && t.running && (events[0].Packet? ==> |events[0].octets| <= BUFFSIZE)
      && IsRun(Deliver(t, events[0]), events[1..]))
  }

  function Exec(t: Terminal, events: seq<Event>): (r: Terminal)
    requires Valid(t) && IsRun(t, events)
    ensures Valid(r)
    decreases |events|
  {
    if events == [] then t else Exec(Deliver(t, events[0]), events[1..])
  }

  /** The non-zero TEIDs, in the order the bus delivered them. */
  function Teids(events: seq<Event>): (r: seq<teid>) {
    if events == [] then []
    else
      (match events[0]
       case Icm(ERabSetupResp(x)) => if x == 0 then [] else [x]
       case _ => []) + Teids(events[1..])
  }

  /** The table holds the last three TEIDs, each at its place in its triple. */
  predicate Holds(t: Terminal, got: seq<teid>) {
    && Valid(t) && t.index == |got| % MAX_DRB
    && forall k :: 0 <= k < |got| && |got| - MAX_DRB <= k ==> t.teids[k % MAX_DRB] == Htonl(got[k])
  }

  lemma ConfigureHolds(t: Terminal, got: seq<teid>, x: teid, buffer: seq<byte>)
    requires Holds(t, got) && x != 0 && |buffer| == BUFFSIZE && FromHost(buffer[..4]) == x
    ensures Holds(Configure(t, buffer), got + [x])
  {
    hide FromHost, Htonl;
    var n, more, r := |got|, got + [x], Configure(t, buffer);
    ModNext(n);
    forall k | 0 <= k < n + 1 && n + 1 - MAX_DRB <= k ensures r.teids[k % MAX_DRB] == Htonl(more[k]) {
      if k < n { ModDiffers(k, n); }
    }
  }

  lemma ModNext(n: nat)
    ensures (n + 1) % MAX_DRB == (n % MAX_DRB + 1) % MAX_DRB
  {
  }

  lemma ModDiffers(k: nat, n: nat)
    requires k < n < k + MAX_DRB
    ensures k % MAX_DRB != n % MAX_DRB
  {
    if n == k + 1 {
      ModNext(k);
    } else {
      ModNext(k);
      ModNext(k + 1);
    }
  }

  lemma DeliverHolds(t: Terminal, got: seq<teid>, e: Event)
    requires Holds(t, got) && (e.Packet? ==> |e.octets| <= BUFFSIZE)
    ensures Holds(Deliver(t, e), got + Teids([e]))
  {
    hide FromHost, Htonl, HostOctets;
    var one := [e];
    assert one[1..] == [];
    if e.Icm? && e.msg.ERabSetupResp? {
      var x := e.msg.gtpTeid;
      HostRoundTrip(x);
      var buffer := Filled(t.buffer, HostOctets(x));
      assert buffer[..4] == HostOctets(x);
      if x != 0 {
        ConfigureHolds(t, got, x, buffer);
        assert Teids(one) == [x];
      } else {
        assert got + Teids(one) == got;
      }
    } else {
      if e.Icm? {
        HostRoundTrip(0);
        assert Filled(t.buffer, HostOctets(0))[..4] == HostOctets(0);
      }
      assert got + Teids(one) == got;
    }
  }

  lemma {:induction false} RunHolds(t: Terminal, got: seq<teid>, events: seq<Event>)
    requires Holds(t, got) && IsRun(t, events)
    ensures Holds(Exec(t, events), got + Teids(events))
    decreases |events|
  {
    hide Deliver, Holds;
    if events == [] {
      assert got + Teids(events) == got;
    } else {
      HoldsValid(t, got);
      DeliverHolds(t, got, events[0]);
      RunHolds(Deliver(t, events[0]), got + Teids([events[0]]), events[1..]);
      TeidsFirst(events);
      assert got + Teids([events[0]]) + Teids(events[1..]) == got + Teids(events);
    }
  }

  lemma HoldsValid(t: Terminal, got: seq<teid>)
    requires Holds(t, got)
    ensures Valid(t)
  {
  }

  lemma TeidsFirst(events: seq<Event>)
    requires events != []
    ensures Teids(events) == Teids([events[0]]) + Teids(events[1..])
  {
    var one := [events[0]];
    assert one[1..] == [];
  }

  lemma {:induction false} RunLast(t: Terminal, events: seq<Event>)
    requires Valid(t) && IsRun(t, events) && events != []
    ensures var n := |events| - 1;
      && (events[n].Packet? ==> |events[n].octets| <= BUFFSIZE)
      && IsRun(t, events[..n]) && Exec(t, events) == Deliver(Exec(t, events[..n]), events[n])
    decreases |events|
  {
    hide Deliver;
    var n := |events| - 1;
    if n > 0 {
      RunLast(Deliver(t, events[0]), events[1..]);
      assert events[1..][..n - 1] == events[..n][1..];
    }
  }

  // ----- which port a packet seems to come from

  /** Octet k of the receive buffer after a run: that of the last packet long enough to have one. */
  function Seen(initial: seq<byte>, events: seq<Event>, k: nat): (r: byte)
    requires k < |initial|
  {
    if events == [] then initial[k]
    else
      var e := events[|events| - 1];
      if e.Packet? && k < |e.octets| then e.octets[k] else Seen(initial, events[..|events| - 1], k)
  }

  /**
   The source port that the terminal takes p to have; a packet without a whole UDP header is judged by
   older octets.
   */
  function PortSeen(initial: seq<byte>, events: seq<Event>, p: seq<byte>): (r: nat)
    requires |initial| == BUFFSIZE
  {
    var all := events + [Packet(p)];
    var high: nat := Seen(initial, all, 28);
    high * 256 + Seen(initial, all, 29)
  }

  lemma DeliverSeen(t: Terminal, e: Event, k: nat)
    requires Valid(t) && (e.Packet? ==> |e.octets| <= BUFFSIZE) && 8 <= k < BUFFSIZE
    ensures Deliver(t, e).buffer[k] == if e.Packet? && k < |e.octets| then e.octets[k] else t.buffer[k]
  {
    hide HostOctets, FromHost, Htonl, SourcePort;
  }

  lemma {:induction false} RunSeen(t: Terminal, events: seq<Event>, k: nat)
    requires Valid(t) && IsRun(t, events) && 8 <= k < BUFFSIZE
    ensures Exec(t, events).buffer[k] == Seen(t.buffer, events, k)
    decreases |events|
  {
    hide Deliver;
    if events != [] {
      var n := |events| - 1;
      RunLast(t, events);
      RunSeen(t, events[..n], k);
      DeliverSeen(Exec(t, events[..n]), events[n], k);
    }
  }

  /** The port is found in the buffer that the packet was received into. */
  lemma PortIsSeen(t: Terminal, events: seq<Event>, p: seq<byte>)
    requires Valid(t) && IsRun(t, events) && |p| <= BUFFSIZE
    ensures SourcePort(Filled(Exec(t, events).buffer, p)) == PortSeen(t.buffer, events, p)
    ensures |p| >= 30 ==> PortSeen(t.buffer, events, p) == SourcePort(p)
  {
    hide Exec;
    RunSeen(t, events, 28);
    RunSeen(t, events, 29);
    assert (events + [Packet(p)])[..|events|] == events;
  }

  // ----- how packets leave

  /** Octets 4 to 7 replaced, as far as the packet has them, everything else untouched. */
  function WithTeid(p: seq<byte>, x: seq<byte>): (r: seq<byte>)
    requires |x| == 4
    ensures |r| == |p|
  {
    seq(|p|, i requires 0 <= i < |p| => if 4 <= i < 8 then x[i - 4] else p[i])
  }

  /**
   How a downlink packet p leaves a terminal that has received `got`: if their number is a multiple
   of three and the source port seen is 6001 + i, with the i-th TEID of the latest triple in network
   order and nothing else changed; otherwise unchanged. Before the first TEID the octets written
   are those of the uninitialised table.
   */
  predicate Mapped(s: Terminal, got: seq<teid>, p: seq<byte>, port: nat)
    requires Valid(s) && |p| <= BUFFSIZE
  {
    var out := Handle(s, Downlink(p)).buffer[..|p|];
    if |got| % 3 == 0 && 6001 <= port <= 6003 then
      var i := port - 6001;
      out == WithTeid(p, if got != [] then NetworkOctets(got[|got| - 3 + i]) else HostOctets(s.teids[i]))
    else out == p
  }

  lemma OnePacket(s: Terminal, got: seq<teid>, p: seq<byte>)
    requires Holds(s, got) && |p| <= BUFFSIZE
    ensures Mapped(s, got, p, SourcePort(Filled(s.buffer, p)))
  {
    hide FromHost, Htonl, HostOctets, NetworkOctets, SourcePort, WithTeid, Holds;
    HoldsValid(s, got);
    var buffer := Filled(s.buffer, p);
    var port := SourcePort(buffer);
    IndexIs(s, got);
    if s.index == 0 && FIRST_PORT <= port < FIRST_PORT + MAX_DRB {
      var i := port - FIRST_PORT;
      if got != [] { LatestTriple(s, got, i); }
      PatchedPrefix(buffer, p, HostOctets(s.teids[i]));
    } else {
      assert buffer[..|p|] == p;
    }
  }

  lemma IndexIs(t: Terminal, got: seq<teid>)
    requires Holds(t, got)
    ensures t.index == |got| % MAX_DRB
  {
  }

  lemma LatestTriple(t: Terminal, got: seq<teid>, i: nat)
    requires Holds(t, got) && |got| % MAX_DRB == 0 && got != [] && i < MAX_DRB
    ensures |got| >= MAX_DRB && HostOctets(t.teids[i]) == NetworkOctets(got[|got| - MAX_DRB + i])
  {
    hide FromHost, Htonl, HostOctets, NetworkOctets;
    var k := |got| - MAX_DRB + i;
    assert k % MAX_DRB == i;
    StoredIsNetworkOrder(got[k]);
  }

  /**
   From the TEIDs on the bus to the octets of every downlink packet, after any run that has not ended
   the terminal.
   */
  lemma PacketsAreMapped(t: Terminal, events: seq<Event>, p: seq<byte>)
    requires Holds(t, []) && IsRun(t, events) && Exec(t, events).running && |p| <= BUFFSIZE
    ensures Mapped(Exec(t, events), Teids(events), p, PortSeen(t.buffer, events, p))
  {
    hide Mapped, Exec, Holds;
    HoldsValid(t, []);
    RunHolds(t, [], events);
    assert [] + Teids(events) == Teids(events);
    OnePacket(Exec(t, events), Teids(events), p);
    PortIsSeen(t, events, p);
  }

  /** Before the first TEID, and only then, a packet from the first port leaves with what the table happens to hold. */
  lemma UninitialisedEntry(t: Terminal, p: seq<byte>)
    requires Holds(t, []) && 30 <= |p| <= BUFFSIZE && SourcePort(p) == FIRST_PORT
    ensures Handle(t, Downlink(p)).buffer[..|p|] == WithTeid(p, HostOctets(t.teids[0]))
    ensures forall x: teid :: x != 0 ==> Handle(Deliver(t, Icm(ERabSetupResp(x))), Downlink(p)).buffer[..|p|] == p
  {
    hide HostOctets, FromHost, Htonl, NetworkOctets;
    OnePacket(t, [], p);
    assert SourcePort(Filled(t.buffer, p)) == SourcePort(p);
    forall x: teid | x != 0 ensures Handle(Deliver(t, Icm(ERabSetupResp(x))), Downlink(p)).buffer[..|p|] == p {
      CountersCleared(t, x);
      var r := Deliver(t, Icm(ERabSetupResp(x)));
      assert !Rewrites(r, Filled(r.buffer, p));
    }
  }

  lemma PatchedPrefix(buffer: seq<byte>, p: seq<byte>, x: seq<byte>)
    requires |p| <= |buffer| && |buffer| >= 8 && buffer[..|p|] == p && |x| == 4
    ensures (buffer[..4] + x + buffer[8..])[..|p|] == WithTeid(p, x)
  {
    var b := buffer[..4] + x + buffer[8..];
    forall i | 0 <= i < |p| ensures b[i] == WithTeid(p, x)[i] {
      assert buffer[i] == buffer[..|p|][i];
    }
  }

  // ----- the counters

  /** The third TEID of a triple clears the counters, a first or second one leaves them. */
  lemma CountersCleared(t: Terminal, x: teid)
    requires Valid(t) && x != 0
    ensures var r := Deliver(t, Icm(ERabSetupResp(x)));
      r.index == (t.index + 1) % MAX_DRB && r.counter == (if t.index == MAX_DRB - 1 then [0, 0, 0] else t.counter)
  {
    hide FromHost, HostOctets, Htonl;
    HostRoundTrip(x);
    assert Filled(t.buffer, HostOctets(x))[..4] == HostOctets(x);
  }

  predicate IsTeid(e: Event) {
    e.Icm? && e.msg.ERabSetupResp? && e.msg.gtpTeid != 0
  }

  /** Event n brings the third TEID of a triple. */
  predicate Completes(events: seq<Event>, n: nat)
    requires n < |events|
  {
    IsTeid(events[n]) && |Teids(events[..n + 1])| % MAX_DRB == 0
  }

  /** Event n is a packet seen to come from port 6001 + i, and arrives between two triples. */
  predicate PortPacket(initial: seq<byte>, events: seq<Event>, n: nat, i: nat)
    requires n < |events| && |initial| == BUFFSIZE
  {
    && events[n].Packet? && PortSeen(initial, events[..n], events[n].octets) == FIRST_PORT + i
    && |Teids(events[..n])| % MAX_DRB == 0
  }

  /** How many of them there are since the last triple was completed. */
  function SinceTriple(initial: seq<byte>, events: seq<Event>, i: nat): (r: nat)
    requires |initial| == BUFFSIZE
  {
    if events == [] then 0
    else
      var n := |events| - 1;
      if Completes(events, n) then 0
      else SinceTriple(initial, events[..n], i) + (if PortPacket(initial, events, n, i) then 1 else 0)
  }

  lemma CounterStep(t: Terminal, got: seq<teid>, e: Event, i: nat)
    requires Holds(t, got) && i < MAX_DRB && (e.Packet? ==> |e.octets| <= BUFFSIZE)
    ensures var r := Deliver(t, e);
      r.counter[i] ==
        if IsTeid(e) && (|got| + 1) % MAX_DRB == 0 then 0
        else if e.Packet? && SourcePort(Filled(t.buffer, e.octets)) == FIRST_PORT + i && |got| % MAX_DRB == 0
        then t.counter[i] + 1
        else t.counter[i]
  {
    hide HostOctets, FromHost, Htonl;
    match e
    case Packet(_) =>
    case Icm(m) =>
      if m.ERabSetupResp? {
        HostRoundTrip(m.gtpTeid);
        assert Filled(t.buffer, HostOctets(m.gtpTeid))[..4] == HostOctets(m.gtpTeid);
        ModNext(|got|);
      } else if m.Terminate? {
        HostRoundTrip(0);
        assert Filled(t.buffer, HostOctets(0))[..4] == HostOctets(0);
      }
  }

  lemma {:induction false} TeidsLast(events: seq<Event>)
    requires events != []
    ensures var n := |events| - 1;
      |Teids(events)| == |Teids(events[..n])| + (if IsTeid(events[n]) then 1 else 0)
    decreases |events|
  {
    var n := |events| - 1;
    if n > 0 {
      TeidsLast(events[1..]);
      assert events[1..][..n - 1] == events[..n][1..];
    }
  }

  /**
   After every run, counter i is the number of packets rewritten for port 6001 + i since the last
   completed triple.
   */
  lemma {:induction false} CountersCount(t: Terminal, events: seq<Event>, i: nat)
    requires Holds(t, []) && t.counter == [0, 0, 0] && IsRun(t, events) && i < MAX_DRB
    ensures Exec(t, events).counter[i] == SinceTriple(t.buffer, events, i)
    decreases |events|
  {
    hide Deliver, Teids, Holds, IsTeid, PortSeen, SourcePort;
    HoldsValid(t, []);
    if events != [] {
      var n := |events| - 1;
      RunLast(t, events);
      CountersCount(t, events[..n], i);
      RunHolds(t, [], events[..n]);
      CounterStep(Exec(t, events[..n]), [] + Teids(events[..n]), events[n], i);
      TeidsLast(events);
      if events[n].Packet? { PortIsSeen(t, events[..n], events[n].octets); }
      assert events[..n + 1] == events;
    }
  }
}
