/** No lost wake-up: a task never sleeps on a message that nobody will wake it up for. */
module IttiWakeup {
  import opened IttiBus

  /** Tokens a sleeping task can count on, less the messages waiting. */
  function Surplus(t: Task): (r: int) {
    t.sem + t.owed - |t.queue|
  }

  /**
   One token may have been spent on a message that is still to be taken, but never where the task may
   block.
   */
  function Floor(pc: Pc): (r: int) {
    match pc
    case RecvStart => -1
    case RecvCheck => -1
    case PollCheck => -1
    case RecvRelock => -1
    case RecvAgain => -1
    case RecvTake => -1
    case _ => 0
  }

  predicate Covered(t: Task) {
    && Surplus(t) >= Floor(t.pc) && t.owed <= 1
    && (t.pc.Reading? ==> t.sem > 0)
    && (t.pc == RecvTake ==> t.queue != [])
    && (t.pc == RecvNone ==> t.queue == [])
  }

  lemma ConsumerKeepsCovered(t: Task, a: ConsumerAct)
    requires Covered(t) && ConsumerCan(t, a)
    ensures Covered(ConsumerNext(t, a))
  {
  }

  lemma SenderKeepsCovered(s: Sender, t: Task, i: nat, a: SenderAct)
    requires Covered(t) && SenderCan(s, t, a)
    requires a.Change? && !s.work.NewTimer? ==> t.owed == 0 && !HoldsLock(t.pc)
    ensures Covered(TaskNext(s, t, i, a))
  {
  }

  // ----- who holds a task's lock

  predicate HoldsLock(pc: Pc) {
    pc in {RecvCheck, PollCheck, RecvAgain, RecvTake, RecvNone, RecvDone} || pc.EvHeld?
  }

  /** Sender s is inside the critical section of task t. */
  predicate Inside(s: Sender, t: nat) {
    s.busy && s.stage != Wanted && s.target == t
  }

  /** Sender s has inserted a message and not yet written the eventfd. */
  predicate Owes(s: Sender, t: nat) {
    s.busy && s.stage == Inserted && s.target == t && !s.work.NewTimer?
  }

  predicate TaskOk(t: Task) {
    && (HoldsLock(t.pc) <==> t.lock == [Consumer])
    && |t.lock| <= 1
    && (t.owed != 0 ==> |t.lock| == 1 && t.lock[0].Thread?)
  }

  /** Task and sender agree on whether the sender is inside, and on what it owes. */
  predicate PairOk(task: Task, t: nat, s: Sender, i: nat) {
    && (Inside(s, t) <==> task.lock == [Thread(i)])
    && (task.lock == [Thread(i)] ==> (task.owed != 0 <==> Owes(s, t)))
  }

  ghost predicate LockOk(b: Bus) {
    && (forall t :: t in b.tasks ==> TaskOk(b.tasks[t]))
    && (forall t, i :: t in b.tasks && i in b.senders ==> PairOk(b.tasks[t], t, b.senders[i], i))
    && (forall t, i :: t in b.tasks && b.tasks[t].lock == [Thread(i)] ==> i in b.senders)
  }

  lemma ConsumerLocal(task: Task, a: ConsumerAct)
    requires TaskOk(task) && ConsumerCan(task, a)
    ensures TaskOk(ConsumerNext(task, a)) && ConsumerNext(task, a).owed == task.owed
    ensures forall i :: ConsumerNext(task, a).lock == [Thread(i)] <==> task.lock == [Thread(i)]
  {
  }

  lemma ConsumerKeepsLock(b: Bus, t: nat, a: ConsumerAct)
    requires LockOk(b) && Can(b, ByTask(t, a))
    ensures LockOk(Next(b, ByTask(t, a)))
  {
    hide HoldsLock, ConsumerNext, ConsumerCan, TaskOk, Owes, Inside;
    ConsumerLocal(b.tasks[t], a);
    assert forall i :: i in b.senders ==> PairOk(b.tasks[t], t, b.senders[i], i);
  }

  /** The sender that moves, seen from its target. */
  lemma SenderSelf(s: Sender, task: Task, t: nat, i: nat, a: SenderAct, icm: nat)
    requires TaskOk(task) && PairOk(task, t, s, i) && SenderCan(s, task, a)
    requires t == TargetOf(s, a)
    ensures TaskOk(TaskNext(s, task, i, a)) && PairOk(TaskNext(s, task, i, a), t, SenderNext(s, i, a, icm), i)
  {
  }

  /** The sender that moves, seen from any other task: it is not inside before or after. */
  lemma SenderElsewhere(s: Sender, task: Task, t: nat, u: nat, i: nat, a: SenderAct, icm: nat)
    requires PairOk(task, u, s, i) && u != t
    requires t == TargetOf(s, a) && Ready(s, a)
    ensures PairOk(task, u, SenderNext(s, i, a, icm), i)
  {
  }

  /** Any other sender, seen from the target of the one that moves. */
  lemma OtherSender(s: Sender, o: Sender, task: Task, t: nat, i: nat, j: nat, a: SenderAct)
    requires PairOk(task, t, s, i) && PairOk(task, t, o, j) && i != j && SenderCan(s, task, a) && TaskOk(task)
    requires t == TargetOf(s, a)
    ensures PairOk(TaskNext(s, task, i, a), t, o, j)
  {
  }

  lemma SenderKeepsLock(b: Bus, i: nat, a: SenderAct)
    requires LockOk(b) && Can(b, BySender(i, a))
    ensures LockOk(Next(b, BySender(i, a)))
  {
    hide TaskOk, PairOk, TaskNext, SenderNext;
    var s, t := b.senders[i], TargetOf(b.senders[i], a);
    var b' := Next(b, BySender(i, a));
    SenderSelf(s, b.tasks[t], t, i, a, b.icm);
    forall u, j | u in b'.tasks && j in b'.senders ensures PairOk(b'.tasks[u], u, b'.senders[j], j) {
      assert PairOk(b.tasks[u], u, b.senders[j], j);
      if j == i && u != t {
        SenderElsewhere(s, b.tasks[u], t, u, i, a, b.icm);
      } else if j != i && u == t {
        OtherSender(s, b.senders[j], b.tasks[t], t, i, j, a);
      }
    }
    LockNames(s, b.tasks[t], i, a);
  }

  lemma LockNames(s: Sender, task: Task, i: nat, a: SenderAct)
    ensures forall j :: TaskNext(s, task, i, a).lock == [Thread(j)] ==> j == i || task.lock == [Thread(j)]
  {
  }

  // ----- every run

  ghost predicate Awake(b: Bus) {
    LockOk(b) && forall t :: t in b.tasks ==> Covered(b.tasks[t])
  }

  lemma StepKeepsAwake(b: Bus, step: Step)
    requires Awake(b) && Can(b, step)
    ensures Awake(Next(b, step))
  {
    hide LockOk;
    match step
    case ByTask(t, a) =>
      ConsumerKeepsLock(b, t, a);
      ConsumerKeepsCovered(b.tasks[t], a);
    case BySender(i, a) =>
      SenderKeepsLock(b, i, a);
      if a.Change? { NothingOwedBefore(b, i, a); }
      SenderKeepsCovered(b.senders[i], b.tasks[TargetOf(b.senders[i], a)], i, a);
  }

  /** A thread about to insert finds no insertion half done: it holds the lock. */
  lemma NothingOwedBefore(b: Bus, i: nat, a: SenderAct)
    requires Awake(b) && Can(b, BySender(i, a)) && a.Change?
    ensures var task := b.tasks[b.senders[i].target]; task.owed == 0 && !HoldsLock(task.pc)
  {
    var t := b.senders[i].target;
    assert PairOk(b.tasks[t], t, b.senders[i], i) && Inside(b.senders[i], t);
    assert TaskOk(b.tasks[t]);
  }

  lemma {:induction false} RunKeepsAwake(b: Bus, steps: seq<Step>)
    requires Awake(b) && IsRun(b, steps)
    ensures Awake(Exec(b, steps))
    decreases |steps|
  {
    hide Awake, Next, Can;
    if steps != [] {
      assert Can(b, steps[0]);
      StepKeepsAwake(b, steps[0]);
      RunKeepsAwake(Next(b, steps[0]), steps[1..]);
    }
  }

  lemma InitialAwake(b: Bus)
    requires Initial(b)
    ensures Awake(b)
  {
  }

  /**
   In every reachable state, a task that sleeps while messages wait has a token to wake it up, for
   each of them, unless a thread stands between inserting a message and writing the eventfd: that
   thread still holds the task's lock, and its write is the only token missing.
   */
  lemma NeverSleepsOnMessage(b: Bus, steps: seq<Step>, t: nat)
    requires Initial(b) && IsRun(b, steps) && t in Exec(b, steps).tasks
    ensures var b' := Exec(b, steps); var task := b'.tasks[t];
      task.pc.Waiting? ==>
        || |task.queue| <= task.sem
        || (&& |task.queue| == task.sem + 1
            && exists i :: i in b'.senders && task.lock == [Thread(i)] && Owes(b'.senders[i], t))
  {
    InitialAwake(b);
    RunKeepsAwake(b, steps);
    var b' := Exec(b, steps);
    assert Covered(b'.tasks[t]);
    var lock := b'.tasks[t].lock;
    assert TaskOk(b'.tasks[t]);
    if b'.tasks[t].owed != 0 {
      assert lock == [Thread(lock[0].i)];
      assert PairOk(b'.tasks[t], t, b'.senders[lock[0].i], lock[0].i);
    }
  }

  /** A receive or poll that returns without a message does so only because none waits. */
  lemma NothingOnlyIfEmpty(b: Bus, steps: seq<Step>, t: nat)
    requires Initial(b) && IsRun(b, steps) && t in Exec(b, steps).tasks
    ensures var task := Exec(b, steps).tasks[t]; task.pc == RecvNone ==> task.queue == []
  {
    InitialAwake(b);
    RunKeepsAwake(b, steps);
    assert Covered(Exec(b, steps).tasks[t]);
  }

  /** One step of the task's own thread. */
  predicate Goes(t: Task, a: ConsumerAct, n: Task) {
    ConsumerCan(t, a) && ConsumerNext(t, a) == n
  }

  /** The path through the states of `path` by the steps of `acts`. */
  predicate Path(path: seq<Task>, acts: seq<ConsumerAct>) {
    |path| == |acts| + 1 && forall i :: 0 <= i < |acts| ==> Goes(path[i], acts[i], path[i + 1])
  }

  /** The task once it has taken a token and the oldest message. */
  function Received(t: Task): (r: Task)
    requires t.queue != [] && t.sem > 0
  {
    var last := |t.queue| - 1;
    t.(sem := t.sem - 1, queue := t.queue[..last], taken := t.taken + [t.queue[last]])
  }

  lemma WakesUp(t: Task)
    requires t.pc.Waiting? && t.sem > 0
    ensures var t1 := t.(pc := Reading(t.pc.inRecv));
      Goes(t, WakeBySemaphore, t1) && Goes(t1, ReadSemaphore, t1.(pc := Back(t.pc.inRecv), sem := t.sem - 1))
  {
  }

  lemma Looks(t: Task)
    requires t.lock == [] && t.queue != []
    ensures t.pc == RecvRelock ==>
      && Goes(t, Relock, t.(pc := RecvAgain, lock := [Consumer]))
      && Goes(t.(pc := RecvAgain, lock := [Consumer]), LookAgain, t.(pc := RecvTake, lock := [Consumer]))
    ensures t.pc == RecvStart ==>
      && Goes(t, LockForReceive, t.(pc := RecvCheck, lock := [Consumer]))
      && Goes(t.(pc := RecvCheck, lock := [Consumer]), Look, t.(pc := RecvTake, lock := [Consumer]))
  {
  }

  lemma Takes(t: Task)
    requires t.pc == RecvTake && t.queue != [] && t.sem >= 0
    ensures var last := |t.queue| - 1; var n := t.(queue := t.queue[..last], taken := t.taken + [t.queue[last]]);
      && Goes(t, Take, n.(pc := RecvDone)) && Goes(n.(pc := RecvDone), Release, n.(pc := Handling, lock := []))
      && Goes(n.(pc := Handling, lock := []), Loop, n.(pc := if t.eventLoop then EvStart else RecvStart, lock := []))
  {
  }

  /**
   What a task asleep in a receive does once it is woken up, if nobody else gets the lock in between: it
   takes one token and the oldest message, and then goes on as its loop says.
   */
  lemma WokenReceives(t: Task) returns (path: seq<Task>)
    requires t.pc == Waiting(true) && t.sem > 0 && t.queue != [] && t.lock == []
    ensures Path(path, [WakeBySemaphore, ReadSemaphore, Relock, LookAgain, Take, Release, Loop])
    ensures path[0] == t && path[7] == Received(t).(pc := if t.eventLoop then EvStart else RecvStart)
  {
    hide Goes;
    var t2 := t.(pc := RecvRelock, sem := t.sem - 1);
    var t4, n := t2.(pc := RecvTake, lock := [Consumer]), Received(t);
    WakesUp(t);
    Looks(t2);
    Takes(t4);
    path := [t, t.(pc := Reading(true)), t2, t2.(pc := RecvAgain, lock := [Consumer]), t4,
             n.(pc := RecvDone, lock := [Consumer]), n.(pc := Handling),
                 n.(pc := if t.eventLoop then EvStart else RecvStart)];
  }

  /** The same for the other loop: asleep in get_events, it comes back to receive the message with the token gone. */
  lemma WokenByEvents(t: Task) returns (path: seq<Task>)
    requires t.pc == Waiting(false) && t.sem > 0 && t.queue != [] && t.lock == []
    ensures Path(path, [WakeBySemaphore, ReadSemaphore, LockForReceive, Look, Take, Release])
    ensures path[0] == t && path[6] == Received(t).(pc := Handling)
  {
    hide Goes;
    var t2 := t.(pc := RecvStart, sem := t.sem - 1);
    var t4, n := t2.(pc := RecvTake, lock := [Consumer]), Received(t);
    WakesUp(t);
    Looks(t2);
    Takes(t4);
    path := [t, t.(pc := Reading(false)), t2, t2.(pc := RecvCheck, lock := [Consumer]), t4,
             n.(pc := RecvDone, lock := [Consumer]), n.(pc := Handling)];
  }

  /**
   What a receive does if it is woken up by another descriptor and finds no message: it returns without one
   if the task watches other descriptors, and waits again if it does not.
   */
  lemma WokenByOther(t: Task)
    requires t.pc == Waiting(true) && t.queue == [] && t.lock == []
    ensures var t1 := t.(pc := RecvRelock); var t2 := t.(pc := RecvAgain, lock := [Consumer]);
      && Goes(t, WakeByOther, t1) && Goes(t1, Relock, t2)
      && Goes(t2, LookAgain, t2.(pc := if t.otherFds then RecvNone else EvHeld(true)))
      && Goes(t2.(pc := RecvNone), TakeNothing, t2.(pc := RecvDone))
      && Goes(t2.(pc := EvHeld(true)), Sleep, t)
  {
  }
}
