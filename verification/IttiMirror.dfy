/**
 Conservation on the bus: queues are first in, first out, and every mirrored call leaves exactly one
 original and one copy.
 */
module IttiMirror {
  import opened Bytes
  import opened IttiBus

  // ----- first in, first out

  /** What came in is what went out followed by what waits, oldest first. */
  predicate Fifo(t: Task) {
    t.entered == t.taken + Reversed(t.queue)
  }

  lemma InsertFifo(t: Task, e: Entry)
    requires Fifo(t)
    ensures Fifo(Insert(t, e))
  {
    assert ([e] + t.queue)[1..] == t.queue;
    assert t.taken + Reversed(t.queue) + [e] == t.taken + (Reversed(t.queue) + [e]);
  }

  lemma ConsumerFifo(t: Task, a: ConsumerAct)
    requires Fifo(t) && ConsumerCan(t, a)
    ensures Fifo(ConsumerNext(t, a))
  {
    if a.Take? {
      ReversedLast(t.queue);
      var last := |t.queue| - 1;
      assert t.taken + [t.queue[last]] + Reversed(t.queue[..last]) ==
          t.taken + ([t.queue[last]] + Reversed(t.queue[..last]));
    } else if a.ExpireTimer? {
      InsertFifo(t, a.e);
    }
  }

  lemma SenderFifo(s: Sender, t: Task, i: nat, a: SenderAct)
    requires Fifo(t)
    ensures Fifo(TaskNext(s, t, i, a))
  {
    if a.Change? && !s.work.NewTimer? { InsertFifo(t, s.work.entry); }
  }

  // ----- originals and copies

  function OriginalsOf(log: seq<Entry>, i: nat): (r: seq<Entry>) {
    if log == [] then []
    else
      var e := log[|log| - 1];
      OriginalsOf(log[..|log| - 1], i) + (if e.tag.Original? && e.tag.sender == i then [e] else [])
  }

  function CopiesOf(log: seq<Entry>, i: nat): (r: seq<Entry>) {
    if log == [] then []
    else
      var e := log[|log| - 1];
      CopiesOf(log[..|log| - 1], i) + (if e.tag.Copy? && e.tag.sender == i then [e] else [])
  }

  /** What calls number 0, 1, ... of sender i put into the queue of task t. */
  function Originals(calls: seq<Call>, i: nat, t: nat): (r: seq<Entry>) {
    if calls == [] then []
    else
      var k := |calls| - 1;
      Originals(calls[..k], i, t) + (if calls[k].destination == t then [OriginalEntry(calls[k], i, k)] else [])
  }

  /** What they put into the queue of the ICM task besides. */
  function Copies(calls: seq<Call>, i: nat, icm: nat): (r: seq<Entry>) {
    if calls == [] then []
    else
      var k := |calls| - 1;
      Copies(calls[..k], i, icm) +
      (if calls[k].msg.id != RrcSubframeProcess then [CopyEntry(calls[k], i, k, icm)] else [])
  }

  function OriginalEntry(c: Call, i: nat, k: nat): (r: Entry) {
    Entry(Stamp(c.msg, c.destination, c.instance), Original(i, k))
  }

  function CopyEntry(c: Call, i: nat, k: nat, icm: nat): (r: Entry) {
    Entry(Stamp(c.msg, icm, c.instance), Copy(i, k))
  }

  /** The call in progress is the last one, and what it carries is its original and its copy. */
  predicate WorkOk(s: Sender, i: nat, icm: nat) {
    s.busy && !s.work.NewTimer? ==>
      && s.calls != []
      && var k := |s.calls| - 1;
      match s.work
      case OriginalOf(e, c) => e == OriginalEntry(s.calls[k], i, k) && c == CopyEntry(s.calls[k], i, k, icm) &&
          s.target == s.calls[k].destination
      case CopyOf(e) => e == CopyEntry(s.calls[k], i, k, icm) && s.target == icm &&
          s.calls[k].msg.id != RrcSubframeProcess
      case NewTimer => true
  }

  /** Calls whose original is already in its queue, and calls whose copy is. */
  function SentCalls(s: Sender): (r: seq<Call>)
    requires s.busy && !s.work.NewTimer? ==> s.calls != []
  {
    if s.busy && s.work.OriginalOf? && (s.stage == Wanted || s.stage == Held) then s.calls[..|s.calls| - 1] else s.calls
  }

  function MirroredCalls(s: Sender): (r: seq<Call>)
    requires s.busy && !s.work.NewTimer? ==> s.calls != []
  {
    if s.busy && (s.work.OriginalOf? || (s.work.CopyOf? && (s.stage == Wanted || s.stage == Held))) then
        s.calls[..|s.calls| - 1]
    else s.calls
  }

  /**
   The log of task t holds exactly sender i's originals for t and, if t is the ICM task, its copies, in
   call order.
   */
  predicate MirrorOk(s: Sender, i: nat, log: seq<Entry>, t: nat, icm: nat) {
    && WorkOk(s, i, icm)
    && OriginalsOf(log, i) == Originals(SentCalls(s), i, t)
    && CopiesOf(log, i) == if t == icm then Copies(MirroredCalls(s), i, icm) else []
  }

  /** An entry tagged with somebody else's name, or a timer, changes nothing for sender i. */
  lemma ForeignEntry(log: seq<Entry>, e: Entry, i: nat)
    requires e.tag.Timer? || e.tag.sender != i
    ensures OriginalsOf(log + [e], i) == OriginalsOf(log, i) && CopiesOf(log + [e], i) == CopiesOf(log, i)
  {
    assert (log + [e])[..|log|] == log;
  }

  lemma OwnEntry(log: seq<Entry>, e: Entry, i: nat)
    requires !e.tag.Timer? && e.tag.sender == i
    ensures OriginalsOf(log + [e], i) == OriginalsOf(log, i) + (if e.tag.Original? then [e] else [])
    ensures CopiesOf(log + [e], i) == CopiesOf(log, i) + (if e.tag.Copy? then [e] else [])
  {
    assert (log + [e])[..|log|] == log;
  }

  /** Sender i's own step, seen from the log of task t before and after it. */
  lemma OwnStep(s: Sender, i: nat, task: Task, t: nat, a: SenderAct, icm: nat)
    requires MirrorOk(s, i, task.entered, t, icm) && Ready(s, a)
    ensures var log := if t == TargetOf(s, a) then TaskNext(s, task, i, a).entered else task.entered;
      MirrorOk(SenderNext(s, i, a, icm), i, log, t, icm)
  {
    hide OriginalsOf, CopiesOf;
    match a
    case BeginSend(c) => OwnBegin(s, i, task.entered, t, c, icm);
    case BeginTimer(_) =>
    case Lock =>
    case Change => OwnChange(s, i, task, t, icm);
    case Post =>
    case Unlock => OwnUnlock(s, i, task.entered, t, icm);
  }

  lemma OwnBegin(s: Sender, i: nat, log: seq<Entry>, t: nat, c: Call, icm: nat)
    requires MirrorOk(s, i, log, t, icm) && !s.busy
    ensures MirrorOk(Begin(s, i, c, icm), i, log, t, icm)
  {
    hide OriginalsOf, CopiesOf, Originals, Copies;
    assert (s.calls + [c])[..|s.calls|] == s.calls;
  }

  lemma OwnChange(s: Sender, i: nat, task: Task, t: nat, icm: nat)
    requires MirrorOk(s, i, task.entered, t, icm) && Ready(s, Change)
    ensures var log := if t == s.target then TaskNext(s, task, i, Change).entered else task.entered;
      MirrorOk(s.(stage := Inserted), i, log, t, icm)
  {
    hide OriginalsOf, CopiesOf, Originals, Copies;
    if !s.work.NewTimer? {
      hide MirrorOk;
      OwnInsert(s, i, task.entered, t, icm);
    }
  }

  lemma OwnInsert(s: Sender, i: nat, log: seq<Entry>, t: nat, icm: nat)
    requires MirrorOk(s, i, log, t, icm) && Ready(s, Change) && !s.work.NewTimer?
    ensures MirrorOk(s.(stage := Inserted), i, if t == s.target then log + [s.work.entry] else log, t, icm)
  {
    hide OriginalsOf, CopiesOf, OriginalEntry, CopyEntry;
    EntryTags(s, i, icm);
    OwnEntry(log, s.work.entry, i);
    CallsNext(s, i, t, icm);
    hide Originals, Copies;
  }

  /** The last call adds its own original and copy to those of the calls before it. */
  lemma CallsNext(s: Sender, i: nat, t: nat, icm: nat)
    requires s.calls != []
    ensures var k := |s.calls| - 1; var c := s.calls[k];
      && Originals(s.calls, i, t) ==
          Originals(s.calls[..k], i, t) + (if c.destination == t then [OriginalEntry(c, i, k)] else [])
      && Copies(s.calls, i, icm) ==
         Copies(s.calls[..k], i, icm) + (if c.msg.id != RrcSubframeProcess then [CopyEntry(c, i, k, icm)] else [])
  {
  }

  lemma EntryTags(s: Sender, i: nat, icm: nat)
    requires WorkOk(s, i, icm) && s.busy
    ensures s.work.OriginalOf? ==> s.work.entry.tag == Original(i, |s.calls| - 1)
    ensures s.work.CopyOf? ==> s.work.entry.tag == Copy(i, |s.calls| - 1)
  {
  }

  lemma OwnUnlock(s: Sender, i: nat, log: seq<Entry>, t: nat, icm: nat)
    requires MirrorOk(s, i, log, t, icm) && Ready(s, Unlock)
    ensures MirrorOk(Finish(s, icm), i, log, t, icm)
  {
    hide OriginalsOf, CopiesOf;
  }

  /** Another sender's step. */
  lemma ForeignStep(s: Sender, i: nat, o: Sender, j: nat, task: Task, t: nat, a: SenderAct, icm: nat)
    requires MirrorOk(s, i, task.entered, t, icm) && WorkOk(o, j, icm) && i != j && Ready(o, a)
    ensures MirrorOk(s, i, TaskNext(o, task, j, a).entered, t, icm)
  {
    if a.Change? && !o.work.NewTimer? { ForeignEntry(task.entered, o.work.entry, i); }
  }

  /** A step of the receiving task itself. */
  lemma TaskStep(s: Sender, i: nat, task: Task, t: nat, a: ConsumerAct, icm: nat)
    requires MirrorOk(s, i, task.entered, t, icm) && ConsumerCan(task, a)
    ensures MirrorOk(s, i, ConsumerNext(task, a).entered, t, icm)
  {
    if a.ExpireTimer? { ForeignEntry(task.entered, a.e, i); }
  }

  // ----- every run

  ghost predicate Conserved(b: Bus) {
    && b.icm in b.tasks
    && (forall t :: t in b.tasks ==> Fifo(b.tasks[t]))
    && (forall i, t :: i in b.senders && t in b.tasks ==> MirrorOk(b.senders[i], i, b.tasks[t].entered, t, b.icm))
  }

  lemma StepConserves(b: Bus, step: Step)
    requires Conserved(b) && Can(b, step)
    ensures Conserved(Next(b, step))
  {
    hide MirrorOk, ConsumerNext, TaskNext, SenderNext, Fifo, ConsumerCan;
    var b' := Next(b, step);
    match step
    case ByTask(u, a) =>
      ConsumerFifo(b.tasks[u], a);
      forall i, t | i in b'.senders && t in b'.tasks
          ensures MirrorOk(b'.senders[i], i, b'.tasks[t].entered, t, b'.icm) {
        assert MirrorOk(b.senders[i], i, b.tasks[t].entered, t, b.icm);
        if t == u { TaskStep(b.senders[i], i, b.tasks[t], t, a, b.icm); }
      }
    case BySender(j, a) =>
      var o := b.senders[j];
      var u := TargetOf(o, a);
      SenderFifo(o, b.tasks[u], j, a);
      WorkIsOk(b, j, u);
      forall i, t | i in b'.senders && t in b'.tasks
          ensures MirrorOk(b'.senders[i], i, b'.tasks[t].entered, t, b'.icm) {
        assert MirrorOk(b.senders[i], i, b.tasks[t].entered, t, b.icm);
        if i == j {
          OwnStep(o, i, b.tasks[t], t, a, b.icm);
        } else if t == u {
          ForeignStep(b.senders[i], i, o, j, b.tasks[t], t, a, b.icm);
        }
      }
  }

  lemma WorkIsOk(b: Bus, j: nat, u: nat)
    requires Conserved(b) && j in b.senders && u in b.tasks
    ensures WorkOk(b.senders[j], j, b.icm)
  {
    assert MirrorOk(b.senders[j], j, b.tasks[u].entered, u, b.icm);
  }

  lemma {:induction false} RunConserves(b: Bus, steps: seq<Step>)
    requires Conserved(b) && IsRun(b, steps)
    ensures Conserved(Exec(b, steps))
    decreases |steps|
  {
    hide Conserved, Next, Can;
    if steps != [] {
      assert Can(b, steps[0]);
      StepConserves(b, steps[0]);
      RunConserves(Next(b, steps[0]), steps[1..]);
    }
  }

  lemma InitialConserved(b: Bus)
    requires Initial(b)
    ensures Conserved(b)
  {
  }

  // ----- what originals and copies are, field by field

  /** The calls of sender i in a run. */
  function CallsIn(steps: seq<Step>, i: nat): (r: seq<Call>) {
    if steps == [] then [] else CallOf(steps[0], i) + CallsIn(steps[1..], i)
  }

  function CallOf(e: Step, i: nat): (r: seq<Call>) {
    match e
    case BySender(j, BeginSend(c)) => if j == i then [c] else []
    case _ => []
  }

  lemma OneCall(b: Bus, e: Step, i: nat)
    requires Can(b, e) && i in b.senders
    ensures i in Next(b, e).senders && Next(b, e).senders[i].calls == b.senders[i].calls + CallOf(e, i)
  {
  }

  lemma {:induction false} CallsAre(b: Bus, steps: seq<Step>, i: nat)
    requires IsRun(b, steps) && i in b.senders
    ensures i in Exec(b, steps).senders && Exec(b, steps).senders[i].calls == b.senders[i].calls + CallsIn(steps, i)
    decreases |steps|
  {
    if steps == [] {
      assert b.senders[i].calls + [] == b.senders[i].calls;
    } else {
      var b' := Next(b, steps[0]);
      var one := CallOf(steps[0], i);
      OneCall(b, steps[0], i);
      CallsAre(b', steps[1..], i);
      hide Next, CallOf, Can;
      assert b.senders[i].calls + one + CallsIn(steps[1..], i) == b.senders[i].calls + (one + CallsIn(steps[1..], i));
    }
  }

  /** Entry e carries what call c asked for, to task t. */
  predicate Carries(e: Entry, c: Call, t: nat) {
    && e.msg.id == c.msg.id && e.msg.origin == c.msg.origin && e.msg.payload == c.msg.payload
    && e.msg.destination == t && e.msg.instance == c.instance
  }

  /** The entries are the originals of sender i's calls to t: each once, in call order, with everything they ask for. */
  ghost predicate AreOriginals(entries: seq<Entry>, calls: seq<Call>, i: nat, t: nat) {
    && (forall j :: 0 <= j < |entries| ==>
          var tag := entries[j].tag;
          && tag.Original? && tag.sender == i && tag.call < |calls| && calls[tag.call].destination == t
          && Carries(entries[j], calls[tag.call], t))
    && (forall j, k :: 0 <= j < k < |entries| ==> entries[j].tag.call < entries[k].tag.call)
    && (forall k :: 0 <= k < |calls| && calls[k].destination == t ==>
          exists j :: 0 <= j < |entries| && entries[j].tag.call == k)
  }

  /** The entries are the copies of sender i's calls, but for RRC_SUBFRAME_PROCESS. */
  ghost predicate AreCopies(entries: seq<Entry>, calls: seq<Call>, i: nat, icm: nat) {
    && (forall j :: 0 <= j < |entries| ==>
          var tag := entries[j].tag;
          && tag.Copy? && tag.sender == i && tag.call < |calls| && calls[tag.call].msg.id != RrcSubframeProcess
          && Carries(entries[j], calls[tag.call], icm))
    && (forall j, k :: 0 <= j < k < |entries| ==> entries[j].tag.call < entries[k].tag.call)
    && (forall k :: 0 <= k < |calls| && calls[k].msg.id != RrcSubframeProcess ==>
          exists j :: 0 <= j < |entries| && entries[j].tag.call == k)
  }

  lemma OriginalsNext(entries: seq<Entry>, calls: seq<Call>, c: Call, i: nat, t: nat)
    requires AreOriginals(entries, calls, i, t)
    ensures AreOriginals(entries + (if c.destination == t then [OriginalEntry(c, i, |calls|)] else []), calls + [c],
        i, t)
  {
    var all := entries + (if c.destination == t then [OriginalEntry(c, i, |calls|)] else []);
    forall k | 0 <= k < |calls| + 1 && (calls + [c])[k].destination == t
      ensures exists j :: 0 <= j < |all| && all[j].tag.call == k {
      if k < |calls| {
        var j :| 0 <= j < |entries| && entries[j].tag.call == k;
        assert all[j] == entries[j];
      } else {
        assert all[|entries|].tag.call == k;
      }
    }
  }

  lemma {:induction false} OriginalsAre(calls: seq<Call>, i: nat, t: nat)
    ensures AreOriginals(Originals(calls, i, t), calls, i, t)
  {
    if calls != [] {
      hide AreOriginals, OriginalEntry;
      var n := |calls| - 1;
      OriginalsAre(calls[..n], i, t);
      OriginalsNext(Originals(calls[..n], i, t), calls[..n], calls[n], i, t);
      assert calls[..n] + [calls[n]] == calls;
    }
  }

  lemma CopiesNext(entries: seq<Entry>, calls: seq<Call>, c: Call, i: nat, icm: nat)
    requires AreCopies(entries, calls, i, icm)
    ensures AreCopies(entries + (if c.msg.id != RrcSubframeProcess then [CopyEntry(c, i, |calls|, icm)] else []),
                      calls + [c], i, icm)
  {
    var all := entries + (if c.msg.id != RrcSubframeProcess then [CopyEntry(c, i, |calls|, icm)] else []);
    forall k | 0 <= k < |calls| + 1 && (calls + [c])[k].msg.id != RrcSubframeProcess
      ensures exists j :: 0 <= j < |all| && all[j].tag.call == k {
      if k < |calls| {
        var j :| 0 <= j < |entries| && entries[j].tag.call == k;
        assert all[j] == entries[j];
      } else {
        assert all[|entries|].tag.call == k;
      }
    }
  }

  lemma {:induction false} CopiesAre(calls: seq<Call>, i: nat, icm: nat)
    ensures AreCopies(Copies(calls, i, icm), calls, i, icm)
  {
    if calls != [] {
      hide AreCopies, CopyEntry;
      var n := |calls| - 1;
      CopiesAre(calls[..n], i, icm);
      CopiesNext(Copies(calls[..n], i, icm), calls[..n], calls[n], i, icm);
      assert calls[..n] + [calls[n]] == calls;
    }
  }

  /**
   In every reachable state and for every sender between calls: the queue of each task has received
   exactly one original for each call to it, the ICM task exactly one copy for each call that is not
   RRC_SUBFRAME_PROCESS, both in call order and with the id, origin, payload and instance of the call;
   and what a task has received is the beginning of what entered its queue.
   */
  lemma EveryCallMirrored(b: Bus, steps: seq<Step>, i: nat, t: nat)
    requires Initial(b) && IsRun(b, steps) && i in b.senders
    requires i in Exec(b, steps).senders && t in Exec(b, steps).tasks && !Exec(b, steps).senders[i].busy
    ensures var b' := Exec(b, steps); var calls := CallsIn(steps, i); var task := b'.tasks[t];
      && AreOriginals(OriginalsOf(task.entered, i), calls, i, t)
      && (if t == b'.icm then AreCopies(CopiesOf(task.entered, i), calls, i, t) else CopiesOf(task.entered, i) == [])
      && task.taken <= task.entered
  {
    hide AreOriginals, AreCopies, Originals, Copies, OriginalsOf, CopiesOf, CallsIn;
    InitialConserved(b);
    RunConserves(b, steps);
    CallsAre(b, steps, i);
    var b', calls := Exec(b, steps), CallsIn(steps, i);
    assert [] + calls == calls;
    assert MirrorOk(b'.senders[i], i, b'.tasks[t].entered, t, b'.icm);
    assert Fifo(b'.tasks[t]);
    OriginalsAre(calls, i, t);
    CopiesAre(calls, i, t);
  }
}
