/**
 Whose turn it is: which bearer the first PDU of a round comes from, by what the bearers hold and by the
 gate control list (eNB_scheduler_dlsch.c), and how often that is each bearer in 20 subframes.
 */
module DlGates {
  import opened Bytes
  import opened DlGather
  import opened RlcReassembly
  import opened DlStream
  import opened DlExact

  /** The gate control list of the source, by subframe modulo 20. */
  const GATES: seq<nat> := [4, 5, 6, 3, 3, 4, 3, 3, 3, 3, 4, 5, 3, 3, 3, 4, 3, 3, 3, 3]

  function Gate(t: nat): (r: nat)
    ensures 3 <= r <= 6
  {
    GATES[t % 20]
  }

  ghost predicate Holds(s: State, l: nat) {
    l in s.bearers && s.bearers[l].queue != []
  }

  ghost predicate NoneHolds(s: State, from: nat, to: nat) {
    forall l :: from <= l <= to ==> !Holds(s, l)
  }

  /** The bearer of the first PDU, 0 for none. */
  ghost function First(s: State, e: Event): (r: nat)
    requires e.Send? && Permitted(s, e)
  {
    if Round(s, e).lcids == [] then 0 else Round(s, e).lcids[0]
  }

  lemma {:induction false} BusyAt(bs: Bearers, order: seq<nat>, k: nat)
    requires k < |order| && order[k] in bs && bs[order[k]].queue != []
    requires forall j :: 0 <= j < k ==> order[j] in bs ==> bs[order[j]].queue == []
    ensures FirstBusy(bs, order) == Some(order[k])
    decreases k
  {
    if k > 0 { BusyAt(bs, order[1..], k - 1); }
  }

  /** The bearer at place k of the order supplies the first PDU if it is the first one there that holds data. */
  lemma ServedAt(s: State, e: Event, k: nat)
    requires e.Send? && Permitted(s, e) && Offer(e) >= 3 && k < 13
    requires var order := FullOrder(e.t, s.fiInd);
      Holds(s, order[k]) && forall j :: 0 <= j < k ==> !Holds(s, order[j])
    ensures First(s, e) == FullOrder(e.t, s.fiInd)[k]
  {
    hide Poll, HonestPolls, Mergeable, Need, FullOrder, FirstBusy;
    var order := FullOrder(e.t, s.fiInd);
    PollFirst(s.bearers, Offer(e), order, e.answers);
    BusyAt(s.bearers, order, k);
  }

  /** Signalling bearers hold nothing. */
  lemma NoSignallingHeld(s: State)
    requires Inv(s)
    ensures NoneHolds(s, 0, 2)
  {
    hide Project, Payloads;
    forall l | 0 <= l <= 2 ensures !Holds(s, l) {
      assert l in s.bearers ==> s.accepted[l] == [];
    }
  }

  /** Bearers 8 to 13: the highest one that holds data goes first, whatever the subframe. */
  lemma HighestFirst(s: State, e: Event, c: nat)
    requires Inv(s) && e.Send? && Permitted(s, e) && Offer(e) >= 3
    requires 8 <= c <= 13 && Holds(s, c) && NoneHolds(s, c + 1, 13)
    ensures First(s, e) == c
  {
    hide Inv, Permitted, Gated;
    NoSignallingHeld(s);
    ServedAt(s, e, 15 - c);
  }

  /** If none of these holds data, a dedicated bearer with an unfinished SDU goes first. */
  lemma UnfinishedServed(s: State, e: Event)
    requires Inv(s) && e.Send? && Permitted(s, e) && Offer(e) >= 3
    requires s.fiInd != 0 && s.fiInd != 3 && NoneHolds(s, 8, 13)
    ensures First(s, e) == s.fiInd
  {
    hide Inv, Permitted, First, Holds, FullOrder;
    OpenHolds(s);
    NoSignallingHeld(s);
    BeforeSlot(s, e.t);
    ServedAt(s, e, 8);
  }

  /** The places of the order before the one for an unfinished SDU. */
  lemma BeforeSlot(s: State, t: nat)
    requires NoneHolds(s, 0, 2) && NoneHolds(s, 8, 13)
    ensures var order := FullOrder(t, s.fiInd);
      && (forall j :: 0 <= j < 8 ==> !Holds(s, order[j]))
      && order[8] == (if s.fiInd != 0 && s.fiInd != 3 then s.fiInd else 7)
      && order[9] == order[10] == order[11] == Gated(t) && order[12] == 3
  {
    hide Holds, Gated;
    var order := FullOrder(t, s.fiInd);
    forall j | 0 <= j < 8 ensures !Holds(s, order[j]) {
      assert order[j] <= 2 || 8 <= order[j] <= 13;
    }
  }

  lemma OpenHolds(s: State)
    requires Inv(s) && s.fiInd != 0
    ensures Holds(s, s.fiInd)
  {
    hide Project, Payloads;
  }

  /** The rounds in which the gate control list decides: room for a PDU, and no other bearer comes before it. */
  ghost predicate GateDecides(s: State, e: Event) {
    && Inv(s) && e.Send? && Permitted(s, e) && Offer(e) >= 3
    && NoneHolds(s, 7, 13) && s.fiInd in {0, 3, Gate(e.t)}
  }

  lemma GatesAre(t: nat)
    ensures Gated(t) == Gate(t)
  {
    hide Gated, Window;
    Periodic(t, t % 20);
    FirstWindow();
    WindowAt(t % 20);
  }

  lemma WindowAt(k: nat)
    requires k < 20
    ensures Window(0)[k] == Gated(k)
  {
  }

  /** In such a round the gated bearer supplies the first PDU if it holds data, and else at most the default bearer. */
  lemma GatedServed(s: State, e: Event)
    requires GateDecides(s, e)
    ensures var g := Gate(e.t);
      if Holds(s, g) then First(s, e) == g else First(s, e) == if Holds(s, 3) then 3 else 0
  {
    hide Inv, Permitted, First, Holds, FullOrder, Gate, Gated;
    GatesAre(e.t);
    NoSignallingHeld(s);
    BeforeSlot(s, e.t);
    var g := Gate(e.t);
    if Holds(s, g) {
      ServedAt(s, e, if s.fiInd == g && g != 3 then 8 else 9);
    } else {
      FiIsNot(s, g);
      if Holds(s, 3) {
        ServedAt(s, e, 12);
      } else {
        NobodyServed(s, e);
      }
    }
  }

  lemma FiIsNot(s: State, g: nat)
    requires Inv(s) && !Holds(s, g)
    ensures g != 0 ==> s.fiInd != g
  {
    if s.fiInd != 0 { OpenHolds(s); }
  }

  lemma {:induction false} NobodyBusy(bs: Bearers, order: seq<nat>)
    requires forall j :: 0 <= j < |order| ==> order[j] in bs ==> bs[order[j]].queue == []
    ensures FirstBusy(bs, order) == None
    decreases |order|
  {
    if order != [] { NobodyBusy(bs, order[1..]); }
  }

  lemma NobodyServed(s: State, e: Event)
    requires Inv(s) && e.Send? && Permitted(s, e)
    requires forall j :: 0 <= j < 13 ==> !Holds(s, FullOrder(e.t, s.fiInd)[j])
    ensures First(s, e) == 0
  {
    hide Poll, HonestPolls, Mergeable, Need, FirstBusy, Inv, FullOrder;
    var order := FullOrder(e.t, s.fiInd);
    PollFirst(s.bearers, Offer(e), order, e.answers);
    NobodyBusy(s.bearers, order);
  }

  // ----- 20 subframes in a row

  /** A round in each of 20 subframes from t on, in which the list decides. */
  ghost predicate TwentyRounds(t: nat, ss: seq<State>, es: seq<Event>) {
    |ss| == |es| == 20 && forall i :: 0 <= i < 20 ==> GateDecides(ss[i], es[i]) && es[i].t == t + i
  }

  ghost function Firsts(t: nat, ss: seq<State>, es: seq<Event>): (r: seq<nat>)
    requires TwentyRounds(t, ss, es)
    ensures |r| == 20
  {
    seq(20, i requires 0 <= i < 20 => First(ss[i], es[i]))
  }

  lemma {:induction false} SameOccurrences(a: seq<nat>, b: seq<nat>, c: nat)
    requires |a| == |b| && forall i :: 0 <= i < |a| ==> (a[i] == c <==> b[i] == c)
    ensures multiset(a)[c] == multiset(b)[c]
  {
    if a != [] {
      var n := |a| - 1;
      SameOccurrences(a[..n], b[..n], c);
      assert a == a[..n] + [a[n]] && b == b[..n] + [b[n]];
    }
  }

  /** A dedicated bearer that holds data whenever it is gated supplies the first PDU four times, twice or once. */
  lemma DedicatedTurns(t: nat, ss: seq<State>, es: seq<Event>, c: nat)
    requires TwentyRounds(t, ss, es) && 4 <= c <= 6
    requires forall i :: 0 <= i < 20 && Gate(t + i) == c ==> Holds(ss[i], c)
    ensures multiset(Firsts(t, ss, es))[c] == if c == 4 then 4 else if c == 5 then 2 else 1
  {
    hide GateDecides, First, Holds, Gate, Window;
    GateShares(t);
    var w, f := Window(t), Firsts(t, ss, es);
    forall i | 0 <= i < 20 ensures f[i] == c <==> w[i] == c {
      Turn(t, ss[i], es[i], i, c);
    }
    SameOccurrences(f, w, c);
    FourShares(w);
  }

  lemma WindowIs(t: nat, i: nat)
    requires i < 20
    ensures Window(t)[i] == Gated(t + i)
  {
  }

  lemma Turn(t: nat, s: State, e: Event, i: nat, c: nat)
    requires GateDecides(s, e) && e.t == t + i && i < 20 && 4 <= c <= 6
    requires Gate(t + i) == c ==> Holds(s, c)
    ensures First(s, e) == c <==> Window(t)[i] == c
  {
    hide GateDecides, First, Holds, Gated, Gate, Window;
    GatesAre(t + i);
    WindowIs(t, i);
    GatedServed(s, e);
  }

  /** If every gated bearer holds data, the default bearer has the other 13. */
  lemma AllTurns(t: nat, ss: seq<State>, es: seq<Event>)
    requires TwentyRounds(t, ss, es)
    requires forall i :: 0 <= i < 20 ==> Holds(ss[i], Gate(t + i))
    ensures var m := multiset(Firsts(t, ss, es)); m[4] == 4 && m[5] == 2 && m[6] == 1 && m[3] == 13
  {
    hide GateDecides, First, Holds, Gated, Gate, Window, Shared;
    GateShares(t);
    var w, f := Window(t), Firsts(t, ss, es);
    forall i | 0 <= i < 20 ensures f[i] == w[i] {
      GatesAre(t + i);
      WindowIs(t, i);
      GatedServed(ss[i], es[i]);
    }
    assert f == w;
    FourShares(f);
  }

  lemma FourShares(f: seq<nat>)
    requires Shared(multiset(f))
    ensures var m := multiset(f); m[4] == 4 && m[5] == 2 && m[6] == 1 && m[3] == 13
  {
  }
}
