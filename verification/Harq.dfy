/**
 HARQ state of one UE in the downlink scheduler (eNB_scheduler_dlsch.c): per process a round, the
 NDI and MCS of the last block, and its number of resource blocks, which is stored even if the
 block is dropped afterwards for lack of control channel elements. Feedback arrives in between.
 */
module Harq {
  import opened Bytes

  /** Round 8: nothing is outstanding. */
  const IDLE: nat := 8

  datatype Process = Process(round: nat, oldNdi: nat, oldMcs: nat, nbRb: nat)

  /** A DCI that was sent; `isNew` tells a new block from a retransmission. */
  datatype Dci = Dci(pid: nat, ndi: nat, mcs: nat, nbRb: nat, rv: nat, isNew: bool)

  datatype Ue = Ue(procs: seq<Process>, sent: seq<Dci>)

  datatype Event =
    /** One pass: block of this size if new data may go out, and whether control channel elements suffice. */
    | Schedule(pid: nat, available: nat, mcs: nat, nbRb: nat, hasData: bool, feasible: bool)
    /** ACK, NACK or giving up: the round of an outstanding process changes, to 8 when it is free again. */
    | Feedback(pid: nat, round: nat)

  predicate Can(u: Ue, e: Event) {
    match e
    case Schedule(pid, _, _, _, _, _) => pid < |u.procs|
    case Feedback(pid, round) => pid < |u.procs| && u.procs[pid].round != IDLE && round <= IDLE
  }

  function Retransmit(p: Process, pid: nat): (r: Dci) {
    Dci(pid, p.oldNdi, p.oldMcs, p.nbRb, p.round % 4, false)
  }

  function Transmit(p: Process, pid: nat, mcs: nat, nbRb: nat): (r: Dci) {
    Dci(pid, if p.oldNdi == 0 then 1 else 0, mcs, nbRb, 0, true)
  }

  function Next(u: Ue, e: Event): (r: Ue)
    requires Can(u, e)
  {
    match e
    case Feedback(pid, round) => u.(procs := u.procs[pid := u.procs[pid].(round := round)])
    case Schedule(pid, available, mcs, nbRb, hasData, feasible) =>
      var p := u.procs[pid];
      if p.round != IDLE then
        if p.nbRb <= available && feasible then u.(sent := u.sent + [Retransmit(p, pid)]) else u
      else if !hasData then u
      else if !feasible then u.(procs := u.procs[pid := p.(nbRb := nbRb)])
      else
        var d := Transmit(p, pid, mcs, nbRb);
        Ue(u.procs[pid := Process(0, d.ndi, mcs, nbRb)], u.sent + [d])
  }

  /** The fields as the scheduler updates them. */
  class HarqUe {
    var round: seq<nat>
    var oldNdi: seq<nat>
    var oldMcs: seq<nat>
    var nbRbs: seq<nat>
    ghost var sent: seq<Dci>

    ghost function State(): (r: Ue)
      requires |round| == |oldNdi| == |oldMcs| == |nbRbs|
      reads this
      ensures |r.procs| == |round|
    {
      Ue(seq(|round|, i requires 0 <= i < |round| reads this requires |round| == |oldNdi| == |oldMcs| == |nbRbs| =>
               Process(round[i], oldNdi[i], oldMcs[i], nbRbs[i])), sent)
    }

    ghost predicate Valid()
      reads this
    {
      |round| == |oldNdi| == |oldMcs| == |nbRbs| && forall i :: 0 <= i < |oldNdi| ==> oldNdi[i] <= 1
    }

    constructor (processes: nat)
      ensures Valid() && |round| == processes && sent == []
      ensures forall i :: 0 <= i < processes ==> round[i] == IDLE
    {
      round := seq(processes, _ => IDLE);
      oldNdi, oldMcs, nbRbs := seq(processes, _ => 0), seq(processes, _ => 0), seq(processes, _ => 0);
      sent := [];
    }

    /** One pass for one process; `dci` is what goes out, if anything. */
    method Pass(pid: nat, available: nat, mcs: nat, nbRb: nat, hasData: bool, feasible: bool) returns (dci: Option<Dci>)
      requires Valid() && pid < |round|
      modifies this
      ensures Valid() && |round| == |old(round)|
      ensures State() == Next(old(State()), Schedule(pid, available, mcs, nbRb, hasData, feasible))
      ensures sent == old(sent) + (if dci.Some? then [dci.value] else [])
    {
      dci := None;
      ghost var u := State();
      if round[pid] != 8 {
        if nbRbs[pid] <= available && feasible {
          dci := Some(Dci(pid, oldNdi[pid], oldMcs[pid], nbRbs[pid], round[pid] % 4, false));
        }
      } else if hasData {
        nbRbs := nbRbs[pid := nbRb];
        if feasible {
          dci := Some(Dci(pid, 1 - oldNdi[pid], mcs, nbRb, 0, true));
          round := round[pid := 0];
          oldNdi := oldNdi[pid := 1 - oldNdi[pid]];
          oldMcs := oldMcs[pid := mcs];
        }
      }
      if dci.Some? {
        sent := sent + [dci.value];
      }
      assert State().procs == Next(u, Schedule(pid, available, mcs, nbRb, hasData, feasible)).procs;
    }
  }

  // ----- what the UE can rely on

  /** The last DCI sent for a process. */
  function LastFor(sent: seq<Dci>, pid: nat): (r: Option<Dci>) {
    if sent == [] then None
    else if sent[|sent| - 1].pid == pid then Some(sent[|sent| - 1])
    else LastFor(sent[..|sent| - 1], pid)
  }

  /**
   Stored state and last DCI agree; the number of resource blocks only matters while a block is
   outstanding.
   */
  predicate InStep(p: Process, last: Option<Dci>) {
    match last
    case None => p.round == IDLE
    case Some(d) => p.oldNdi == d.ndi && p.oldMcs == d.mcs && (p.round != IDLE ==> p.nbRb == d.nbRb)
  }

  /**
   NDI toggles exactly for new blocks (section 5.3.2.2 of 3GPP TS 36.321), and a retransmission repeats
   MCS and size.
   */
  predicate Follows(d: Dci, last: Option<Dci>) {
    match last
    case None => d.isNew
    case Some(l) => (d.ndi != l.ndi <==> d.isNew) && (!d.isNew ==> d.mcs == l.mcs && d.nbRb == l.nbRb)
  }

  ghost predicate Agreed(sent: seq<Dci>) {
    && (forall k :: 0 <= k < |sent| ==> sent[k].ndi <= 1)
    && (forall k :: 0 <= k < |sent| ==> Follows(sent[k], LastFor(sent[..k], sent[k].pid)))
  }

  ghost predicate Inv(u: Ue) {
    && (forall i :: 0 <= i < |u.procs| ==> u.procs[i].oldNdi <= 1 && InStep(u.procs[i], LastFor(u.sent, i)))
    && Agreed(u.sent)
  }

  lemma AgreedGrows(sent: seq<Dci>, d: Dci)
    requires Agreed(sent) && d.ndi <= 1 && Follows(d, LastFor(sent, d.pid))
    ensures Agreed(sent + [d])
    ensures forall i :: LastFor(sent + [d], i) == if d.pid == i then Some(d) else LastFor(sent, i)
  {
    hide Follows;
    var all := sent + [d];
    assert all[..|sent|] == sent;
    forall k | 0 <= k < |all| ensures Follows(all[k], LastFor(all[..k], all[k].pid)) {
      if k < |sent| { assert all[..k] == sent[..k]; }
    }
  }

  lemma StepKeeps(u: Ue, e: Event)
    requires Inv(u) && Can(u, e)
    ensures Inv(Next(u, e))
  {
    hide Agreed;
    if e.Schedule? && |Next(u, e).sent| > |u.sent| {
      var p := u.procs[e.pid];
      assert InStep(p, LastFor(u.sent, e.pid));
      var d := if p.round != IDLE then Retransmit(p, e.pid) else Transmit(p, e.pid, e.mcs, e.nbRb);
      LastNdi(u.sent, e.pid);
      AgreedGrows(u.sent, d);
    }
  }

  lemma {:induction false} LastNdi(sent: seq<Dci>, pid: nat)
    requires Agreed(sent)
    ensures LastFor(sent, pid).Some? ==> LastFor(sent, pid).value.ndi <= 1
  {
    if sent != [] {
      var init := sent[..|sent| - 1];
      forall k | 0 <= k < |init| ensures Follows(init[k], LastFor(init[..k], init[k].pid)) {
        assert init[k] == sent[k] && init[..k] == sent[..k];
      }
      LastNdi(init, pid);
    }
  }

  predicate IsRun(u: Ue, events: seq<Event>)
    decreases |events|
  {
    events == [] || (Can(u, events[0]) && IsRun(Next(u, events[0]), events[1..]))
  }

  function Exec(u: Ue, events: seq<Event>): (r: Ue)
    requires IsRun(u, events)
    decreases |events|
  {
    if events == [] then u else Exec(Next(u, events[0]), events[1..])
  }

  lemma {:induction false} RunKeeps(u: Ue, events: seq<Event>)
    requires Inv(u) && IsRun(u, events)
    ensures Inv(Exec(u, events))
    decreases |events|
  {
    hide Inv, Next, Can;
    if events != [] {
      assert Can(u, events[0]);
      StepKeeps(u, events[0]);
      RunKeeps(Next(u, events[0]), events[1..]);
    }
  }

  /**
   Over every run from idle processes: every DCI toggles its process's NDI exactly if its block is
   new, and while a block is outstanding the stored MCS and number of resource blocks are those of
   the block last sent, so that a retransmission recomputes the same transport block size.
   */
  lemma HarqAgreement(u: Ue, events: seq<Event>, pid: nat)
    requires u.sent == [] && (forall i :: 0 <= i < |u.procs| ==> u.procs[i].round == IDLE && u.procs[i].oldNdi <= 1)
    requires IsRun(u, events) && pid < |Exec(u, events).procs|
    ensures var r := Exec(u, events); var p := r.procs[pid]; var last := LastFor(r.sent, pid);
      && Agreed(r.sent)
      && (p.round != IDLE ==>
            last.Some? && p.oldMcs == last.value.mcs && p.nbRb == last.value.nbRb && p.oldNdi == last.value.ndi)
  {
    RunKeeps(u, events);
    var r := Exec(u, events);
    assert InStep(r.procs[pid], LastFor(r.sent, pid));
  }

  /** What the pass that sent a DCI was given: a retransmission fits what was available, new data are as asked for. */
  predicate SentIn(d: Dci, e: Event) {
    && e.Schedule? && e.feasible && d.pid == e.pid && d.rv < 4
    && (if d.isNew then e.hasData && d.mcs == e.mcs && d.nbRb == e.nbRb && d.rv == 0 else d.nbRb <= e.available)
  }

  /** Every DCI sent in a run comes from such a pass, one for each and in this order. */
  lemma {:induction false} SentInOrder(u: Ue, events: seq<Event>) returns (passes: seq<nat>)
    requires IsRun(u, events)
    ensures u.sent <= Exec(u, events).sent && |passes| == |Exec(u, events).sent| - |u.sent|
    ensures forall j :: 0 <= j < |passes| ==>
      passes[j] < |events| && SentIn(Exec(u, events).sent[|u.sent| + j], events[passes[j]])
    ensures forall j, k :: 0 <= j < k < |passes| ==> passes[j] < passes[k]
    decreases |events|
  {
    passes := [];
    if events != [] {
      var v := Next(u, events[0]);
      var later := SentInOrder(v, events[1..]);
      var shifted := seq(|later|, j requires 0 <= j < |later| => later[j] + 1);
      OneStepSends(u, events[0]);
      passes := (if v.sent == u.sent then [] else [0]) + shifted;
    }
  }

  lemma OneStepSends(u: Ue, e: Event)
    requires Can(u, e)
    ensures var v := Next(u, e);
      v.sent == u.sent || (|v.sent| == |u.sent| + 1 && u.sent <= v.sent && SentIn(v.sent[|u.sent|], e))
  {
  }

  /** What feedback means for the next pass: the round gives the redundancy version, 8 makes room for new data. */
  lemma AfterFeedback(u: Ue, pid: nat, round: nat, available: nat, mcs: nat, nbRb: nat)
    requires Can(u, Feedback(pid, round))
    ensures var v := Next(u, Feedback(pid, round)); var e := Schedule(pid, available, mcs, nbRb, true, true);
      && Can(v, e)
      && var sent := Next(v, e).sent;
      if round == 8 then
        |sent| == |u.sent| + 1 && sent[|u.sent|].isNew && sent[|u.sent|].mcs == mcs && sent[|u.sent|].nbRb == nbRb
      else if u.procs[pid].nbRb <= available then
        |sent| == |u.sent| + 1 && !sent[|u.sent|].isNew && sent[|u.sent|].rv == round % 4
      else sent == u.sent
  {
  }
}
