/**
 The eventfd of every task over whole runs: what was written to it, by senders, timer set-ups and expired
 timers, is what was read from it and what is still in it; and every message comes with one write.
 */
module IttiTokens {
  import opened IttiBus
  import opened IttiWakeup

  /** Writes to the eventfd of task t by one step. */
  function Written(b: Bus, step: Step, t: nat): (r: nat) {
    match step
    case ByTask(u, act) => if u == t && act.ExpireTimer? then 1 else 0
    case BySender(i, act) => if act.Post? && i in b.senders && b.senders[i].target == t then 1 else 0
  }

  function Writes(b: Bus, steps: seq<Step>, t: nat): (r: nat)
    requires IsRun(b, steps)
    decreases |steps|
  {
    if steps == [] then 0 else Written(b, steps[0], t) + Writes(Next(b, steps[0]), steps[1..], t)
  }

  /** Reads from it. */
  function Reads(steps: seq<Step>, t: nat): (r: nat) {
    if steps == [] then 0 else (if steps[0] == ByTask(t, ReadSemaphore) then 1 else 0) + Reads(steps[1..], t)
  }

  lemma StepTokens(b: Bus, step: Step, t: nat)
    requires Can(b, step) && t in b.tasks
    ensures t in Next(b, step).tasks
    ensures Next(b, step).tasks[t].sem + (if step == ByTask(t, ReadSemaphore) then 1 else 0) ==
            b.tasks[t].sem + Written(b, step, t)
  {
  }

  /** Over every run nothing is read that was not written, and what was not read is still there. */
  lemma {:induction false} TokenBalance(b: Bus, steps: seq<Step>, t: nat)
    requires IsRun(b, steps) && t in b.tasks
    ensures t in Exec(b, steps).tasks
    ensures Exec(b, steps).tasks[t].sem + Reads(steps, t) == b.tasks[t].sem + Writes(b, steps, t)
    decreases |steps|
  {
    hide Next, Can, Written;
    if steps != [] {
      assert Can(b, steps[0]);
      StepTokens(b, steps[0], t);
      TokenBalance(Next(b, steps[0]), steps[1..], t);
    }
  }

  /** Writes by which timer_setup makes the task look at its timers again. */
  function SetUp(b: Bus, step: Step, t: nat): (r: nat) {
    match step
    case ByTask(_, _) => 0
    case BySender(i, act) =>
      if act.Post? && i in b.senders && b.senders[i].target == t && b.senders[i].work.NewTimer? then 1 else 0
  }

  function SetUps(b: Bus, steps: seq<Step>, t: nat): (r: nat)
    requires IsRun(b, steps)
    decreases |steps|
  {
    if steps == [] then 0 else SetUp(b, steps[0], t) + SetUps(Next(b, steps[0]), steps[1..], t)
  }

  /** Messages that entered the queue, less one whose write is still to be made. */
  function Arrived(task: Task): (r: int) {
    |task.entered| - task.owed
  }

  lemma ConsumerArrived(task: Task, a: ConsumerAct)
    requires ConsumerCan(task, a)
    ensures Arrived(ConsumerNext(task, a)) == Arrived(task) + (if a.ExpireTimer? then 1 else 0)
  {
  }

  lemma SenderArrived(s: Sender, task: Task, t: nat, i: nat, a: SenderAct)
    requires PairOk(task, t, s, i) && SenderCan(s, task, a) && t == TargetOf(s, a) && task.owed <= 1
    requires a.Change? ==> task.owed == 0
    ensures var n := TaskNext(s, task, i, a); var posts := if a.Post? then 1 else 0;
      Arrived(n) + (if a.Post? && s.work.NewTimer? then 1 else 0) == Arrived(task) + posts
  {
  }

  lemma SenderStepArrived(b: Bus, i: nat, a: SenderAct)
    requires Awake(b) && Can(b, BySender(i, a))
    ensures var u := TargetOf(b.senders[i], a); var n := TaskNext(b.senders[i], b.tasks[u], i, a);
      Arrived(n) + (if a.Post? && b.senders[i].work.NewTimer? then 1 else 0) ==
          Arrived(b.tasks[u]) + (if a.Post? then 1 else 0)
  {
    hide TaskNext, Arrived;
    var s, u := b.senders[i], TargetOf(b.senders[i], a);
    assert PairOk(b.tasks[u], u, s, i) && Covered(b.tasks[u]);
    if a.Change? { NothingOwedBefore(b, i, a); }
    SenderArrived(s, b.tasks[u], u, i, a);
  }

  lemma StepArrived(b: Bus, step: Step, t: nat)
    requires Awake(b) && Can(b, step) && t in b.tasks && t in Next(b, step).tasks
    ensures Arrived(Next(b, step).tasks[t]) + SetUp(b, step, t) == Arrived(b.tasks[t]) + Written(b, step, t)
  {
    hide Awake, Arrived, TaskNext, SenderNext, ConsumerNext;
    match step
    case ByTask(u, a) => ConsumerArrived(b.tasks[u], a);
    case BySender(i, a) => SenderStepArrived(b, i, a);
  }

  /** Every message, and every timer set-up, comes with exactly one write, made at most a moment later. */
  lemma {:induction false} OneWriteEach(b: Bus, steps: seq<Step>, t: nat)
    requires Awake(b) && IsRun(b, steps) && t in b.tasks
    ensures t in Exec(b, steps).tasks
    ensures Arrived(Exec(b, steps).tasks[t]) + SetUps(b, steps, t) == Arrived(b.tasks[t]) + Writes(b, steps, t)
    decreases |steps|
  {
    hide Next, Can, Written, Awake, Arrived, SetUp;
    if steps != [] {
      assert Can(b, steps[0]);
      StepTokens(b, steps[0], t);
      StepArrived(b, steps[0], t);
      StepKeepsAwake(b, steps[0]);
      OneWriteEach(Next(b, steps[0]), steps[1..], t);
    }
  }

  /** From the start: tokens read and left are the messages that came, the set-ups, less a write still to be made. */
  lemma TokensAreMessages(b: Bus, steps: seq<Step>, t: nat)
    requires Initial(b) && IsRun(b, steps) && t in b.tasks
    ensures t in Exec(b, steps).tasks
    ensures var task := Exec(b, steps).tasks[t];
      task.sem + Reads(steps, t) == |task.entered| + SetUps(b, steps, t) - task.owed
  {
    InitialAwake(b);
    TokenBalance(b, steps, t);
    OneWriteEach(b, steps, t);
  }
}
