/**
 The ITTI message bus (intertask_interface.cpp) as a state machine. Every task has a message
 vector, an eventfd semaphore and a lock; any number of threads send messages and set up timers,
 and every task's own thread receives, in one of the two loop shapes of the repository. Steps are
 as small as the source's: taking the lock, changing the vector, writing or reading the eventfd
 and releasing the lock are separate, and sleeping in epoll_wait holds no lock.
 */
module IttiBus {

  // ----- messages

  datatype MessageId = RrcSubframeProcess | TimerHasExpired | OtherMessage(number: nat)

  datatype Message = Message(id: MessageId, origin: nat, destination: nat, instance: int, payload: seq<int>)

  /** Which call, or which timer, put an entry into a queue; `call` counts the sender's calls. */
  datatype Tag = Original(sender: nat, call: nat) | Copy(sender: nat, call: nat) | Timer

  datatype Entry = Entry(msg: Message, tag: Tag)

  /** Destination and instance are stamped when the message enters a queue. */
  function Stamp(m: Message, destination: nat, instance: int): (r: Message) {
    m.(destination := destination, instance := instance)
  }

  // ----- a task

  datatype Holder = Consumer | Thread(i: nat)

  /**
   Where a task's own thread is. RecvStart .. Handling: itti_receive_msg or itti_poll_msg;
   EvHeld .. Reading: itti_get_events_locked, called from the receive (inRecv) or by the task.
   */
  datatype Pc =
    | RecvStart | RecvCheck | PollCheck | RecvRelock | RecvAgain | RecvTake | RecvNone | RecvDone | Handling
    | EvStart | EvHeld(inRecv: bool) | Waiting(inRecv: bool) | Interrupted(inRecv: bool) | Reading(inRecv: bool)

  /**
   `queue` is the source's vector: new messages at the front, taken from the back. `owed` is 1
   between a sender's insertion and its eventfd write. `entered` and `taken` record everything that
   was ever inserted and received. `otherFds`: more descriptors than the semaphore are watched.
   `eventLoop`: after each receive the task also calls itti_get_events.
   */
  datatype Task = Task(queue: seq<Entry>, sem: nat, owed: nat, lock: seq<Holder>, pc: Pc,
                       otherFds: bool, eventLoop: bool, entered: seq<Entry>, taken: seq<Entry>)

  function Insert(t: Task, e: Entry): (r: Task) {
    t.(queue := [e] + t.queue, entered := t.entered + [e])
  }

  // ----- steps of the task's own thread

  datatype ConsumerAct =
    | LockForReceive | LockForPoll | LockForEvents | Relock | RelockAfterSignal
    | Look | LookAgain | PollLook | Take | TakeNothing | Release | Loop
    | ExpireTimer(e: Entry) | Sleep | WakeBySemaphore | WakeByOther | WakeBySignal | ReadSemaphore

  /** Where itti_get_events_locked returns to. */
  function Back(inRecv: bool): (r: Pc) {
    if inRecv then RecvRelock else RecvStart
  }

  predicate ConsumerCan(t: Task, a: ConsumerAct) {
    match a
    case LockForReceive => t.pc == RecvStart && t.lock == []
    case LockForPoll => t.pc == RecvStart && t.lock == []
    case LockForEvents => t.pc == EvStart && t.lock == []
    case Relock => t.pc == RecvRelock && t.lock == []
    case RelockAfterSignal => t.pc.Interrupted? && t.lock == []
    case Look => t.pc == RecvCheck
    case LookAgain => t.pc == RecvAgain
    case PollLook => t.pc == PollCheck
    case Take => t.pc == RecvTake && t.queue != []
    case TakeNothing => t.pc == RecvNone
    case Release => t.pc == RecvDone
    case Loop => t.pc == Handling
    case ExpireTimer(e) => t.pc.EvHeld? && e.tag == Timer
    case Sleep => t.pc.EvHeld?
    case WakeBySemaphore => t.pc.Waiting? && t.sem > 0
    case WakeByOther => t.pc.Waiting?
    case WakeBySignal => t.pc.Waiting?
    case ReadSemaphore => t.pc.Reading? && t.sem > 0
  }

  function ConsumerNext(t: Task, a: ConsumerAct): (r: Task)
    requires ConsumerCan(t, a)
  {
    match a
    case LockForReceive => t.(pc := RecvCheck, lock := [Consumer])
    case LockForPoll => t.(pc := PollCheck, lock := [Consumer])
    case LockForEvents => t.(pc := EvHeld(false), lock := [Consumer])
    case Relock => t.(pc := RecvAgain, lock := [Consumer])
    case RelockAfterSignal => t.(pc := EvHeld(t.pc.inRecv), lock := [Consumer])
    case Look => t.(pc := if t.queue == [] then EvHeld(true) else RecvTake)
    case LookAgain =>
      t.(pc := if t.queue != [] then RecvTake else if t.otherFds then RecvNone else EvHeld(true))
    case PollLook => t.(pc := if t.queue == [] then RecvNone else RecvTake)
    case Take =>
      var last := |t.queue| - 1;
      t.(pc := RecvDone, queue := t.queue[..last], taken := t.taken + [t.queue[last]])
    case TakeNothing => t.(pc := RecvDone)
    case Release => t.(pc := Handling, lock := [])
    case Loop => t.(pc := if t.eventLoop then EvStart else RecvStart)
    case ExpireTimer(e) => Insert(t, e).(sem := t.sem + 1)
    case Sleep => t.(pc := Waiting(t.pc.inRecv), lock := [])
    case WakeBySemaphore => t.(pc := Reading(t.pc.inRecv))
    case WakeByOther => t.(pc := Back(t.pc.inRecv))
    case WakeBySignal => t.(pc := Interrupted(t.pc.inRecv))
    case ReadSemaphore => t.(pc := Back(t.pc.inRecv), sem := t.sem - 1)
  }

  // ----- steps of a sending thread, on the task whose queue it is after

  /**
   Wanted: the lock is not yet held; Inserted: the message (or timer) is in, the eventfd not yet
   written.
   */
  datatype Stage = Wanted | Held | Inserted | Posted

  datatype Work = OriginalOf(entry: Entry, copy: Entry) | CopyOf(entry: Entry) | NewTimer

  /** A call in progress: its current critical section. `calls` are all calls made so far. */
  datatype Call = Call(destination: nat, instance: int, msg: Message)

  datatype Sender = Sender(calls: seq<Call>, busy: bool, work: Work, target: nat, stage: Stage)

  datatype SenderAct = BeginSend(call: Call) | BeginTimer(task: nat) | Lock | Change | Post | Unlock

  /** The thread is at this point of its call. */
  predicate Ready(s: Sender, a: SenderAct) {
    match a
    case BeginSend(_) => !s.busy
    case BeginTimer(_) => !s.busy
    case Lock => s.busy && s.stage == Wanted
    case Change => s.busy && s.stage == Held
    case Post => s.busy && s.stage == Inserted
    case Unlock => s.busy && s.stage == Posted
  }

  /** A thread waits for nothing but the lock. */
  predicate SenderCan(s: Sender, t: Task, a: SenderAct) {
    Ready(s, a) && (a.Lock? ==> t.lock == [])
  }

  /** The task a sender's step is about. */
  function TargetOf(s: Sender, a: SenderAct): (r: nat) {
    match a
    case BeginSend(c) => c.destination
    case BeginTimer(task) => task
    case _ => s.target
  }

  /** The copy is made before the original is sent, with the header as it is then. */
  function Begin(s: Sender, i: nat, c: Call, icm: nat): (r: Sender) {
    var k := |s.calls|;
    Sender(s.calls + [c], true,
           OriginalOf(Entry(Stamp(c.msg, c.destination, c.instance), Original(i, k)),
                      Entry(Stamp(c.msg, icm, c.instance), Copy(i, k))),
           c.destination, Wanted)
  }

  /** After an original its copy goes to the ICM task, unless it is RRC_SUBFRAME_PROCESS. */
  function Finish(s: Sender, icm: nat): (r: Sender) {
    if s.work.OriginalOf? && s.work.copy.msg.id != RrcSubframeProcess then
      s.(work := CopyOf(s.work.copy), target := icm, stage := Wanted)
    else s.(busy := false)
  }

  function SenderNext(s: Sender, i: nat, a: SenderAct, icm: nat): (r: Sender) {
    match a
    case BeginSend(c) => Begin(s, i, c, icm)
    case BeginTimer(task) => Sender(s.calls, true, NewTimer, task, Wanted)
    case Lock => s.(stage := Held)
    case Change => s.(stage := Inserted)
    case Post => s.(stage := Posted)
    case Unlock => Finish(s, icm)
  }

  function TaskNext(s: Sender, t: Task, i: nat, a: SenderAct): (r: Task) {
    match a
    case BeginSend(_) => t
    case BeginTimer(_) => t
    case Lock => t.(lock := [Thread(i)])
    case Change => if s.work.NewTimer? then t else Insert(t, s.work.entry).(owed := 1)
    case Post => t.(sem := t.sem + 1, owed := 0)
    case Unlock => t.(lock := [])
  }

  // ----- the whole bus

  datatype Bus = Bus(tasks: map<nat, Task>, senders: map<nat, Sender>, icm: nat)

  datatype Step = ByTask(t: nat, act: ConsumerAct) | BySender(i: nat, send: SenderAct)

  predicate Can(b: Bus, step: Step) {
    match step
    case ByTask(t, act) => t in b.tasks && ConsumerCan(b.tasks[t], act)
    case BySender(i, act) =>
      && i in b.senders && b.icm in b.tasks && TargetOf(b.senders[i], act) in b.tasks
      && SenderCan(b.senders[i], b.tasks[TargetOf(b.senders[i], act)], act)
  }

  function Next(b: Bus, step: Step): (r: Bus)
    requires Can(b, step)
  {
    match step
    case ByTask(t, act) => b.(tasks := b.tasks[t := ConsumerNext(b.tasks[t], act)])
    case BySender(i, act) =>
      var s, t := b.senders[i], TargetOf(b.senders[i], act);
      b.(tasks := b.tasks[t := TaskNext(s, b.tasks[t], i, act)],
         senders := b.senders[i := SenderNext(s, i, act, b.icm)])
  }

  predicate IsRun(b: Bus, steps: seq<Step>)
    decreases |steps|
  {
    steps == [] || (Can(b, steps[0]) && IsRun(Next(b, steps[0]), steps[1..]))
  }

  function Exec(b: Bus, steps: seq<Step>): (r: Bus)
    requires IsRun(b, steps)
    decreases |steps|
  {
    if steps == [] then b else Exec(Next(b, steps[0]), steps[1..])
  }

  /** Empty queues, no token, nobody inside. */
  predicate InitialTask(t: Task) {
    t.queue == [] && t.sem == 0 && t.owed == 0 && t.lock == [] && t.pc == RecvStart && t.entered == [] && t.taken == []
  }

  predicate Initial(b: Bus) {
    && b.icm in b.tasks
    && (forall t :: t in b.tasks ==> InitialTask(b.tasks[t]))
    && (forall i :: i in b.senders ==> !b.senders[i].busy && b.senders[i].calls == [])
  }
}
