/**
 Runs of the ITTI timers over all tasks: set-up (which looks for a free id before it takes the
 lock), removal by id, and scans at arbitrary times. Every set-up gets a generation number; the
 model records for each generation what was asked for and when it posted.
 */
module IttiTimerRuns {
  import opened Bytes
  import opened IttiTimers

  const ID_SPAN: nat := 65536

  /** What a set-up asked for: `start` is its first timeout. */
  datatype Info = Info(id: nat, periodic: bool, duration: nat, start: nat)

  datatype TaskTimers = TaskTimers(timers: Timers, next: Option<nat>)

  /**
   `pending`: ids chosen by threads that have not armed them yet; `fires[g]`: the times at which
   generation g posted.
   */
  datatype World = World(tasks: map<nat, TaskTimers>, pending: map<nat, nat>, infos: seq<Info>, fires: seq<seq<nat>>)

  datatype Event =
    | Choose(thread: nat, task: nat, random: nat)
    | Arm(thread: nat, now: nat, seconds: nat, micros: nat, periodic: bool)
    | RemoveTimer(id: nat)
    | ScanAt(task: nat, now: nat, next: Option<nat>)

  /** Milliseconds, in 32-bit arithmetic. */
  function Duration(seconds: nat, micros: nat): (r: nat) {
    (seconds * 1000 % 0x1_0000_0000 + micros / 1000) % 0x1_0000_0000
  }

  /** The low 16 bits of a timer id name its task. */
  function MakeId(task: nat, random: nat): (r: nat)
    requires task < ID_SPAN
  {
    random % 65535 * ID_SPAN + task
  }

  function Owner(id: nat): (r: nat) { id % ID_SPAN }

  lemma OwnerOfId(task: nat, random: nat)
    requires task < ID_SPAN
    ensures Owner(MakeId(task, random)) == task
  {
  }

  /** Ids differ whenever the tasks do, or the random numbers modulo 65535. */
  lemma IdsDiffer(task: nat, random: nat, task': nat, random': nat)
    requires task < ID_SPAN && task' < ID_SPAN
    ensures MakeId(task, random) == MakeId(task', random') <==> task == task' && random % 65535 == random' % 65535
  {
    OwnerOfId(task, random);
    OwnerOfId(task', random');
  }

  predicate Can(w: World, e: Event) {
    match e
    case Choose(th, task, random) =>
      th !in w.pending && task in w.tasks && task < ID_SPAN && MakeId(task, random) !in w.tasks[task].timers
    case Arm(th, _, _, _, _) => th in w.pending && Owner(w.pending[th]) in w.tasks
    case RemoveTimer(id) => Owner(id) in w.tasks
    case ScanAt(task, now, next) =>
      task in w.tasks && w.tasks[task].next.Some? && w.tasks[task].next.value < now
  }

  /** Generations posted by a scan. */
  predicate Posts(timers: Timers, now: nat, g: nat) {
    exists id :: id in timers && timers[id].gen == g && Expired(timers[id], now)
  }

  function Next(w: World, e: Event): (r: World)
    requires Can(w, e)
  {
    match e
    case Choose(th, task, random) => w.(pending := w.pending[th := MakeId(task, random)])
    case Arm(th, now, seconds, micros, periodic) =>
      var id, d := w.pending[th], Duration(seconds, micros);
      var t := w.tasks[Owner(id)];
      var a := Armed(periodic, d, now + d, |w.infos|);
      var next := if t.next.None? || a.timeout < t.next.value then Some(a.timeout) else t.next;
      World(w.tasks[Owner(id) := TaskTimers(t.timers[id := a], next)], w.pending - {th},
            w.infos + [Info(id, periodic, d, now + d)], w.fires + [[]])
    case RemoveTimer(id) =>
      var t := w.tasks[Owner(id)];
      w.(tasks := w.tasks[Owner(id) := t.(timers := t.timers - {id})])
    case ScanAt(task, now, next) =>
      var t := w.tasks[task];
      w.(tasks := w.tasks[task := TaskTimers(Scanned(t.timers, now), next)],
         fires := seq(|w.fires|, g requires 0 <= g < |w.fires| =>
                        if Posts(t.timers, now, g) then w.fires[g] + [now] else w.fires[g]))
  }

  /** The k-th time at which a periodic timer is due. */
  function Due(i: Info, k: nat): (r: nat) { i.start + k * i.duration }

  lemma DueNext(i: Info, k: nat)
    ensures Due(i, k + 1) == Due(i, k) + i.duration
  {
  }

  // ----- invariant

  /** A stored timer is at the timeout that its posts so far lead to. */
  predicate LiveOk(w: World, t: nat, id: nat, a: Armed) {
    && Owner(id) == t && a.gen < |w.infos| == |w.fires|
    && w.infos[a.gen] == Info(id, a.periodic, a.duration, w.infos[a.gen].start)
    && a.timeout == Due(w.infos[a.gen], |w.fires[a.gen]|)
    && (!a.periodic ==> w.fires[a.gen] == [])
  }

  /** No post before it was due, and at most one for a one-shot. */
  predicate HistoryOk(i: Info, fires: seq<nat>) {
    && (forall k :: 0 <= k < |fires| ==> Due(i, k) < fires[k])
    && (!i.periodic ==> |fires| <= 1)
  }

  ghost predicate Inv(w: World) {
    && |w.infos| == |w.fires|
    && (forall t, id :: t in w.tasks && id in w.tasks[t].timers ==> LiveOk(w, t, id, w.tasks[t].timers[id]))
    && (forall t :: t in w.tasks ==> LowerBound(w.tasks[t].next, w.tasks[t].timers))
    && (forall g :: 0 <= g < |w.infos| ==> HistoryOk(w.infos[g], w.fires[g]))
  }

  /** Generation g is stored somewhere. */
  ghost predicate Live(w: World, g: nat) {
    exists t, id :: t in w.tasks && id in w.tasks[t].timers && w.tasks[t].timers[id].gen == g
  }

  lemma ArmKeeps(w: World, e: Event)
    requires Inv(w) && Can(w, e) && e.Arm?
    ensures Inv(Next(w, e))
  {
    hide LowerBound, HistoryOk;
    var w', id := Next(w, e), w.pending[e.thread];
    var g := |w.infos|;
    var o := Owner(id);
    assert Due(w'.infos[g], 0) == w'.infos[g].start;
    forall t, j | t in w'.tasks && j in w'.tasks[t].timers ensures LiveOk(w', t, j, w'.tasks[t].timers[j]) {
      if t != o || j != id { assert LiveOk(w, t, j, w.tasks[t].timers[j]); }
    }
    forall t | t in w'.tasks ensures LowerBound(w'.tasks[t].next, w'.tasks[t].timers) {
      if t == o { BoundGrows(w.tasks[o].next, w.tasks[o].timers, id, w'.tasks[o].timers[id]); }
    }
    assert HistoryOk(w'.infos[g], w'.fires[g]) by { NoHistory(w'.infos[g]); }
  }

  lemma NoHistory(i: Info)
    ensures HistoryOk(i, [])
  {
  }

  lemma BoundGrows(next: Option<nat>, timers: Timers, id: nat, a: Armed)
    requires LowerBound(next, timers)
    ensures LowerBound(if next.None? || a.timeout < next.value then Some(a.timeout) else next, timers[id := a])
  {
  }

  lemma RemoveKeeps(w: World, e: Event)
    requires Inv(w) && Can(w, e) && e.RemoveTimer?
    ensures Inv(Next(w, e))
  {
    hide HistoryOk;
    var w' := Next(w, e);
    forall t, j | t in w'.tasks && j in w'.tasks[t].timers ensures LiveOk(w', t, j, w'.tasks[t].timers[j]) {
      assert LiveOk(w, t, j, w.tasks[t].timers[j]);
    }
  }

  /** A generation posts because of one timer only, the one its set-up stored. */
  lemma PostsOnce(w: World, t: nat, now: nat, u: nat, id: nat)
    requires Inv(w) && t in w.tasks && u in w.tasks && id in w.tasks[u].timers
    ensures Posts(w.tasks[t].timers, now, w.tasks[u].timers[id].gen) <==> t == u && Expired(w.tasks[u].timers[id], now)
  {
    var a := w.tasks[u].timers[id];
    assert LiveOk(w, u, id, a);
    if Posts(w.tasks[t].timers, now, a.gen) {
      var j :| j in w.tasks[t].timers && w.tasks[t].timers[j].gen == a.gen && Expired(w.tasks[t].timers[j], now);
      assert LiveOk(w, t, j, w.tasks[t].timers[j]);
    }
  }

  lemma ScanKeepsLive(w: World, e: Event, u: nat, id: nat)
    requires Inv(w) && Can(w, e) && e.ScanAt?
    requires u in Next(w, e).tasks && id in Next(w, e).tasks[u].timers
    ensures LiveOk(Next(w, e), u, id, Next(w, e).tasks[u].timers[id])
  {
    var w' := Next(w, e);
    var a := w.tasks[u].timers[id];
    assert LiveOk(w, u, id, a);
    PostsOnce(w, e.task, e.now, u, id);
    DueNext(w.infos[a.gen], |w.fires[a.gen]|);
  }

  lemma ScanKeepsHistory(w: World, e: Event, g: nat)
    requires Inv(w) && Can(w, e) && e.ScanAt? && g < |w.infos|
    ensures HistoryOk(w.infos[g], Next(w, e).fires[g])
  {
    var timers := w.tasks[e.task].timers;
    assert HistoryOk(w.infos[g], w.fires[g]);
    if Posts(timers, e.now, g) {
      var id :| id in timers && timers[id].gen == g && Expired(timers[id], e.now);
      assert LiveOk(w, e.task, id, timers[id]);
    }
  }

  lemma ScanKeeps(w: World, e: Event)
    requires Inv(w) && Can(w, e) && e.ScanAt? && Earliest(e.next, Scanned(w.tasks[e.task].timers, e.now))
    ensures Inv(Next(w, e))
  {
    hide LiveOk, HistoryOk, Posts, Scanned;
    var w' := Next(w, e);
    forall t, id | t in w'.tasks && id in w'.tasks[t].timers ensures LiveOk(w', t, id, w'.tasks[t].timers[id]) {
      ScanKeepsLive(w, e, t, id);
    }
    forall g | 0 <= g < |w'.infos| ensures HistoryOk(w'.infos[g], w'.fires[g]) {
      ScanKeepsHistory(w, e, g);
    }
  }

  // ----- every run

  /** Scans leave the exact earliest timeout behind, as the scanning loop is proved to do. */
  ghost predicate Step(w: World, e: Event) {
    Can(w, e) && (e.ScanAt? ==> Earliest(e.next, Scanned(w.tasks[e.task].timers, e.now)))
  }

  lemma StepKeeps(w: World, e: Event)
    requires Inv(w) && Step(w, e)
    ensures Inv(Next(w, e))
  {
    match e
    case Choose(_, _, _) =>
      var w' := Next(w, e);
      forall t, id | t in w'.tasks && id in w'.tasks[t].timers ensures LiveOk(w', t, id, w'.tasks[t].timers[id]) {
        assert LiveOk(w, t, id, w.tasks[t].timers[id]);
      }
    case Arm(_, _, _, _, _) => ArmKeeps(w, e);
    case RemoveTimer(_) => RemoveKeeps(w, e);
    case ScanAt(_, _, _) => ScanKeeps(w, e);
  }

  /** What is not stored never posts again and never comes back. */
  lemma DeadStaysDead(w: World, e: Event, g: nat)
    requires Inv(w) && Step(w, e) && g < |w.infos| && !Live(w, g)
    ensures g < |Next(w, e).infos| && !Live(Next(w, e), g) && Next(w, e).fires[g] == w.fires[g]
  {
    var w' := Next(w, e);
    forall t, id | t in w'.tasks && id in w'.tasks[t].timers ensures w'.tasks[t].timers[id].gen != g {
      assert id in w.tasks[t].timers ==> w.tasks[t].timers[id].gen != g;
    }
  }

  ghost predicate IsRun(w: World, events: seq<Event>)
    decreases |events|
  {
    events == [] || (Step(w, events[0]) && IsRun(Next(w, events[0]), events[1..]))
  }

  ghost function Exec(w: World, events: seq<Event>): (r: World)
    requires IsRun(w, events)
    decreases |events|
  {
    if events == [] then w else Exec(Next(w, events[0]), events[1..])
  }

  lemma {:induction false} EveryRunKeeps(w: World, events: seq<Event>)
    requires Inv(w) && IsRun(w, events)
    ensures Inv(Exec(w, events))
    decreases |events|
  {
    hide Inv, Next;
    if events != [] {
      StepKeeps(w, events[0]);
      EveryRunKeeps(Next(w, events[0]), events[1..]);
    }
  }

  /** No timer, no thread inside timer_setup. */
  ghost predicate Initial(w: World) {
    && w.pending == map[] && w.infos == [] && w.fires == []
    && forall t :: t in w.tasks ==> w.tasks[t] == TaskTimers(map[], None)
  }

  lemma InitialInv(w: World)
    requires Initial(w)
    ensures Inv(w) && NoClash(w)
  {
  }

  /**
   After every run from an empty world: no timer has posted before it was due, a one-shot at most once, a
   stored timer that has posted k times is at its start plus k durations and belongs to the task named
   by its id, and `next` is never above a stored timeout.
   */
  lemma EveryRun(w: World, events: seq<Event>)
    requires Initial(w) && IsRun(w, events)
    ensures var r := Exec(w, events);
      && |r.infos| == |r.fires|
      && (forall g, k :: 0 <= g < |r.fires| && 0 <= k < |r.fires[g]| ==>
          r.infos[g].start + k * r.infos[g].duration < r.fires[g][k])
      && (forall g :: 0 <= g < |r.fires| && !r.infos[g].periodic ==> |r.fires[g]| <= 1)
      && (forall t, id :: t in r.tasks && id in r.tasks[t].timers ==>
            var a := r.tasks[t].timers[id];
            && id % ID_SPAN == t && a.gen < |r.infos| && r.infos[a.gen].id == id
            && a.timeout == r.infos[a.gen].start + |r.fires[a.gen]| * r.infos[a.gen].duration)
      && (forall t, id :: t in r.tasks && id in r.tasks[t].timers ==>
            r.tasks[t].next.Some? && r.tasks[t].next.value <= r.tasks[t].timers[id].timeout)
  {
    InitialInv(w);
    EveryRunKeeps(w, events);
    var r := Exec(w, events);
    forall g, k | 0 <= g < |r.fires| && 0 <= k < |r.fires[g]|
      ensures r.infos[g].start + k * r.infos[g].duration < r.fires[g][k] {
      assert HistoryOk(r.infos[g], r.fires[g]);
      assert Due(r.infos[g], k) < r.fires[g][k];
    }
    forall g | 0 <= g < |r.fires| && !r.infos[g].periodic ensures |r.fires[g]| <= 1 {
      assert HistoryOk(r.infos[g], r.fires[g]);
    }
    forall t, id | t in r.tasks && id in r.tasks[t].timers ensures
      var a := r.tasks[t].timers[id];
      && id % ID_SPAN == t && a.gen < |r.infos| && r.infos[a.gen].id == id
      && a.timeout == r.infos[a.gen].start + |r.fires[a.gen]| * r.infos[a.gen].duration {
      assert LiveOk(r, t, id, r.tasks[t].timers[id]);
    }
    forall t, id | t in r.tasks && id in r.tasks[t].timers ensures
      r.tasks[t].next.Some? && r.tasks[t].next.value <= r.tasks[t].timers[id].timeout {
      assert LowerBound(r.tasks[t].next, r.tasks[t].timers);
    }
  }

  lemma {:induction false} DeadForever(w: World, events: seq<Event>, g: nat)
    requires Inv(w) && IsRun(w, events) && g < |w.infos| && !Live(w, g)
    ensures g < |Exec(w, events).infos| == |Exec(w, events).fires| && !Live(Exec(w, events), g)
    ensures Exec(w, events).fires[g] == w.fires[g]
    decreases |events|
  {
    hide Next, Live, LiveOk, HistoryOk;
    if events != [] {
      assert Step(w, events[0]);
      StepKeeps(w, events[0]);
      DeadStaysDead(w, events[0], g);
      DeadForever(Next(w, events[0]), events[1..], g);
    }
  }

  /**
   Removing a timer by its id finds the task that stores it, and the timer never posts again, whatever
   happens afterwards.
   */
  lemma RemovedNeverPosts(w: World, t: nat, id: nat, events: seq<Event>)
    requires Inv(w) && t in w.tasks && id in w.tasks[t].timers
    requires Can(w, RemoveTimer(id)) && IsRun(Next(w, RemoveTimer(id)), events)
    ensures var g := w.tasks[t].timers[id].gen; var w' := Exec(Next(w, RemoveTimer(id)), events);
      g < |w.fires| && g < |w'.fires| && w'.fires[g] == w.fires[g] && !Live(w', g)
  {
    var g := w.tasks[t].timers[id].gen;
    var r := Next(w, RemoveTimer(id));
    assert LiveOk(w, t, id, w.tasks[t].timers[id]);
    StepKeeps(w, RemoveTimer(id));
    forall u, j | u in r.tasks && j in r.tasks[u].timers ensures r.tasks[u].timers[j].gen != g {
      assert LiveOk(w, u, j, w.tasks[u].timers[j]);
    }
    DeadForever(r, events, g);
  }

  // ----- when a set-up posts, by the times it was called with

  /** Set-ups among the first p events; the next one gets this number. */
  function SetUps(events: seq<Event>, p: nat): (r: nat)
    requires p <= |events|
    decreases p
  {
    if p == 0 then 0 else (if events[0].Arm? then 1 else 0) + SetUps(events[1..], p - 1)
  }

  lemma DurationIs(seconds: nat, micros: nat)
    requires seconds * 1000 + micros / 1000 < 0x1_0000_0000
    ensures Duration(seconds, micros) == seconds * 1000 + micros / 1000
  {
  }

  lemma ArmedNow(w: World, e: Event)
    requires Can(w, e) && e.Arm? && e.seconds * 1000 + e.micros / 1000 < 0x1_0000_0000
    ensures var ms := e.seconds * 1000 + e.micros / 1000; var i := Next(w, e).infos;
      |i| == |w.infos| + 1 && i[|w.infos|].periodic == e.periodic && i[|w.infos|].duration == ms &&
          i[|w.infos|].start == e.now + ms
  {
    DurationIs(e.seconds, e.micros);
  }

  lemma {:induction false} ArmedAs(w: World, events: seq<Event>, p: nat)
    requires IsRun(w, events) && p < |events| && events[p].Arm?
    requires var e := events[p]; e.seconds * 1000 + e.micros / 1000 < 0x1_0000_0000
    ensures var e := events[p]; var ms := e.seconds * 1000 + e.micros / 1000;
      var g := |w.infos| + SetUps(events, p); var r := Exec(w, events);
      g < |r.infos| && r.infos[g].periodic == e.periodic && r.infos[g].duration == ms && r.infos[g].start == e.now + ms
    decreases p
  {
    hide Step, Duration;
    var e := events[0];
    assert Can(w, e) by { StepCan(w, e); }
    if p == 0 {
      ArmedNow(w, e);
      InfosGrow(Next(w, e), events[1..]);
    } else {
      ArmedAs(Next(w, e), events[1..], p - 1);
      InfosCount(w, e);
    }
  }

  lemma InfosCount(w: World, e: Event)
    requires Can(w, e)
    ensures |Next(w, e).infos| == |w.infos| + (if e.Arm? then 1 else 0)
  {
  }

  /**
   After every run, for every set-up in it: its k-th post is later than the time of the call plus k periods
   (counting from one), a one-shot has at most one, and as long as the timer is stored it is due exactly
   one period after those of its posts so far.
   */
  lemma PostTimes(w: World, events: seq<Event>, p: nat)
    requires Initial(w) && IsRun(w, events) && p < |events| && events[p].Arm?
    requires var e := events[p]; e.seconds * 1000 + e.micros / 1000 < 0x1_0000_0000
    ensures var e := events[p]; var ms := e.seconds * 1000 + e.micros / 1000; var g := SetUps(events, p);
      var r := Exec(w, events);
      && g < |r.fires|
      && (forall k :: 0 <= k < |r.fires[g]| ==> r.fires[g][k] > e.now + (k + 1) * ms)
      && (!e.periodic ==> |r.fires[g]| <= 1)
      && (forall t, id :: t in r.tasks && id in r.tasks[t].timers && r.tasks[t].timers[id].gen == g ==>
            r.tasks[t].timers[id].timeout == e.now + (|r.fires[g]| + 1) * ms)
  {
    hide Due, LowerBound, Exec, IsRun;
    InitialInv(w);
    EveryRunKeeps(w, events);
    ArmedAs(w, events, p);
    var e, r, g := events[p], Exec(w, events), SetUps(events, p);
    var ms := e.seconds * 1000 + e.micros / 1000;
    assert HistoryOk(r.infos[g], r.fires[g]);
    forall k | 0 <= k < |r.fires[g]| ensures r.fires[g][k] > e.now + (k + 1) * ms {
      DueAfter(r.infos[g], e.now, ms, k);
      assert Due(r.infos[g], k) < r.fires[g][k];
    }
    forall t, id | t in r.tasks && id in r.tasks[t].timers && r.tasks[t].timers[id].gen == g
      ensures r.tasks[t].timers[id].timeout == e.now + (|r.fires[g]| + 1) * ms {
      assert LiveOk(r, t, id, r.tasks[t].timers[id]);
      DueAfter(r.infos[g], e.now, ms, |r.fires[g]|);
    }
  }

  lemma DueAfter(i: Info, now: nat, ms: nat, k: nat)
    requires i.start == now + ms && i.duration == ms
    ensures Due(i, k) == now + (k + 1) * ms
  {
    assert ms + k * ms == (k + 1) * ms;
  }

  /** A scan makes a stored timer post if and only if its timeout has passed. */
  lemma ScanPosts(w: World, e: Event, id: nat)
    requires Inv(w) && Step(w, e) && e.ScanAt? && id in w.tasks[e.task].timers
    ensures var a := w.tasks[e.task].timers[id]; var r := Next(w, e);
      a.gen < |w.fires| == |r.fires| && r.fires[a.gen] == w.fires[a.gen] + (if a.timeout < e.now then [e.now] else [])
  {
    var a := w.tasks[e.task].timers[id];
    assert LiveOk(w, e.task, id, a);
    PostsOnce(w, e.task, e.now, e.task, id);
    assert w.fires[a.gen] + [] == w.fires[a.gen];
  }

  // ----- scans that the source leaves undefined

  /** The scan does not erase a timer from under its iterator. */
  ghost predicate Defined(w: World, e: Event)
    requires Can(w, e)
  {
    e.ScanAt? ==> !OneShotDue(w.tasks[e.task].timers, e.now)
  }

  ghost predicate AllDefined(w: World, events: seq<Event>)
    requires IsRun(w, events)
    decreases |events|
  {
    events == [] || (Defined(w, events[0]) && AllDefined(Next(w, events[0]), events[1..]))
  }

  /** No one-shot has posted. */
  ghost predicate NoOneShot(w: World) {
    |w.infos| == |w.fires| && forall g :: 0 <= g < |w.infos| && !w.infos[g].periodic ==> w.fires[g] == []
  }

  /** A step is undefined exactly if it makes a one-shot post. */
  lemma DefinedStep(w: World, e: Event)
    requires Inv(w) && Step(w, e) && NoOneShot(w)
    ensures NoOneShot(Next(w, e)) <==> Defined(w, e)
  {
    var t := Next(w, e);
    if e.ScanAt? {
      var timers := w.tasks[e.task].timers;
      if OneShotDue(timers, e.now) {
        var id :| id in timers && !Survives(timers[id], e.now);
        assert LiveOk(w, e.task, id, timers[id]);
        var g := timers[id].gen;
        assert Posts(timers, e.now, g);
        assert t.fires[g] == w.fires[g] + [e.now] && !t.infos[g].periodic;
      } else {
        forall id | id in timers && Expired(timers[id], e.now)
          ensures timers[id].gen < |w.infos| && w.infos[timers[id].gen].periodic {
          assert LiveOk(w, e.task, id, timers[id]);
          assert Survives(timers[id], e.now);
        }
      }
    }
  }

  lemma FiredStaysFired(w: World, e: Event)
    requires Inv(w) && Step(w, e) && !NoOneShot(w)
    ensures !NoOneShot(Next(w, e))
  {
    var g :| 0 <= g < |w.infos| && !w.infos[g].periodic && w.fires[g] != [];
    var t := Next(w, e);
    assert t.infos[g] == w.infos[g] && |t.fires[g]| >= |w.fires[g]|;
  }

  lemma {:induction false} FiredForever(w: World, events: seq<Event>)
    requires Inv(w) && IsRun(w, events) && !NoOneShot(w)
    ensures !NoOneShot(Exec(w, events))
    decreases |events|
  {
    hide Inv, Next, NoOneShot;
    if events != [] {
      StepKeeps(w, events[0]);
      FiredStaysFired(w, events[0]);
      FiredForever(Next(w, events[0]), events[1..]);
    }
  }

  /** A run never advances an erased iterator if and only if no one-shot ever posts in it. */
  lemma {:induction false} DefinedExactly(w: World, events: seq<Event>)
    requires Inv(w) && IsRun(w, events) && NoOneShot(w)
    ensures AllDefined(w, events) <==> NoOneShot(Exec(w, events))
    decreases |events|
  {
    hide Inv, Next, NoOneShot, Defined;
    if events != [] {
      assert Step(w, events[0]);
      StepKeeps(w, events[0]);
      DefinedStep(w, events[0]);
      if Defined(w, events[0]) {
        DefinedExactly(Next(w, events[0]), events[1..]);
      } else {
        FiredForever(Next(w, events[0]), events[1..]);
      }
    }
  }

  /** One one-shot of a second, set up at 100 and scanned at 1101. */
  const ONE_SHOT: seq<Event> := [Choose(1, 0, 7), Arm(1, 100, 1, 0, false), ScanAt(0, 1101, None)]

  lemma OneShotIsUndefined()
    ensures Initial(ONE_TASK) && IsRun(ONE_TASK, ONE_SHOT)
    ensures !AllDefined(ONE_TASK, ONE_SHOT) && Exec(ONE_TASK, ONE_SHOT).fires == [[1101]]
  {
    var id := MakeId(0, 7);
    assert Owner(id) == 0;
    var w1 := Next(ONE_TASK, ONE_SHOT[0]);
    var w2 := Next(w1, ONE_SHOT[1]);
    var timers := w2.tasks[0].timers;
    assert timers == map[id := Armed(false, 1000, 1100, 0)];
    assert !Survives(timers[id], 1101);
    assert Scanned(timers, 1101) == map[];
    var w3 := Next(w2, ONE_SHOT[2]);
    assert Posts(timers, 1101, 0);
    assert w2.fires == [[]] && |w3.fires| == 1;
    assert w3.fires[0] == [] + [1101] == [1101];
    assert w3.fires == [[1101]];
    var e1, e2, e3 := ONE_SHOT[1..], ONE_SHOT[1..][1..], ONE_SHOT[1..][1..][1..];
    assert e1[0] == ONE_SHOT[1] && e2[0] == ONE_SHOT[2] && e3 == [];
    assert IsRun(w3, e3) && Exec(w3, e3) == w3;
    assert IsRun(w2, e2) && Exec(w2, e2) == Exec(w3, e3) && !AllDefined(w2, e2);
    assert IsRun(w1, e1) && Exec(w1, e1) == w3 && !AllDefined(w1, e1);
  }

  // ----- two set-ups at once

  /** No chosen id is stored yet or chosen by a second thread. */
  ghost predicate NoClash(w: World) {
    && (forall th, t :: th in w.pending && t in w.tasks ==> w.pending[th] !in w.tasks[t].timers)
    && (forall th, ht :: th in w.pending && ht in w.pending && th != ht ==> w.pending[th] != w.pending[ht])
  }

  /** Ids are unique across tasks: each carries the number of the one task that may store it. */
  lemma IdsBelong(w: World, t: nat)
    requires Inv(w) && t in w.tasks
    ensures forall id :: id in w.tasks[t].timers ==> Owner(id) == t
  {
    forall id | id in w.tasks[t].timers ensures Owner(id) == t {
      assert LiveOk(w, t, id, w.tasks[t].timers[id]);
    }
  }

  /** The chosen id is not on its way into the map in another thread. */
  predicate FreshChoice(w: World, e: Event) {
    e.Choose? && e.task < ID_SPAN ==> forall th :: th in w.pending ==> w.pending[th] != MakeId(e.task, e.random)
  }

  /** A set-up finds no timer under its id. */
  predicate StoresFree(w: World, e: Event) {
    e.Arm? && e.thread in w.pending && Owner(w.pending[e.thread]) in w.tasks ==>
      w.pending[e.thread] !in w.tasks[Owner(w.pending[e.thread])].timers
  }

  lemma NoClashStays(w: World, e: Event)
    requires Inv(w) && NoClash(w) && Step(w, e) && FreshChoice(w, e)
    ensures NoClash(Next(w, e)) && StoresFree(w, e)
  {
    if e.Choose? {
      OwnerOfId(e.task, e.random);
      forall t | t in w.tasks ensures MakeId(e.task, e.random) !in w.tasks[t].timers {
        IdsBelong(w, t);
      }
    }
  }

  ghost predicate AllFresh(w: World, events: seq<Event>)
    requires IsRun(w, events)
    decreases |events|
  {
    events == [] || (FreshChoice(w, events[0]) && AllFresh(Next(w, events[0]), events[1..]))
  }

  ghost predicate AllFree(w: World, events: seq<Event>)
    requires IsRun(w, events)
    decreases |events|
  {
    events == [] || (StoresFree(w, events[0]) && AllFree(Next(w, events[0]), events[1..]))
  }

  /**
   In every run in which no thread chooses an id that another one has chosen and not yet stored, no
   set-up meets a stored timer.
   */
  lemma {:induction false} FreshRunsAreFree(w: World, events: seq<Event>)
    requires Inv(w) && NoClash(w) && IsRun(w, events) && AllFresh(w, events)
    ensures AllFree(w, events)
    decreases |events|
  {
    hide Inv, NoClash, Next, FreshChoice, StoresFree;
    if events != [] {
      assert Step(w, events[0]);
      StepKeeps(w, events[0]);
      NoClashStays(w, events[0]);
      FreshRunsAreFree(Next(w, events[0]), events[1..]);
    }
  }

  /** The timer of generation g is stored under its id or nowhere. */
  lemma LiveIsAtId(w: World, g: nat)
    requires Inv(w) && g < |w.infos|
    ensures var id := w.infos[g].id;
      Live(w, g) <==> Owner(id) in w.tasks && id in w.tasks[Owner(id)].timers && w.tasks[Owner(id)].timers[id].gen == g
  {
    forall t, j | t in w.tasks && j in w.tasks[t].timers && w.tasks[t].timers[j].gen == g
      ensures j == w.infos[g].id && t == Owner(j) {
      assert LiveOk(w, t, j, w.tasks[t].timers[j]);
    }
  }

  /** What ends a stored timer: its removal, its post if it is a one-shot, or a set-up under the same id. */
  predicate Ends(w: World, e: Event, g: nat)
    requires Can(w, e) && g < |w.infos| && Owner(w.infos[g].id) in w.tasks
    requires w.infos[g].id in w.tasks[Owner(w.infos[g].id)].timers
  {
    var id := w.infos[g].id;
    match e
    case Choose(_, _, _) => false
    case Arm(th, _, _, _, _) => w.pending[th] == id
    case RemoveTimer(removed) => removed == id
    case ScanAt(task, now, _) => task == Owner(id) && !Survives(w.tasks[task].timers[id], now)
  }

  /** A stored timer is gone after a step if and only if one of these happened. */
  lemma EndsExactly(w: World, e: Event, g: nat)
    requires Inv(w) && Step(w, e) && g < |w.infos| && Live(w, g)
    ensures Owner(w.infos[g].id) in w.tasks && w.infos[g].id in w.tasks[Owner(w.infos[g].id)].timers
    ensures !Live(Next(w, e), g) <==> Ends(w, e, g)
  {
    hide HistoryOk, LowerBound, LiveOk, Earliest, Posts;
    LiveIsAtId(w, g);
    StepKeeps(w, e);
    assert Next(w, e).infos[g] == w.infos[g];
    LiveIsAtId(Next(w, e), g);
  }

  /**
   A set-up under the id of an earlier one silences it for good, whether or not its timer was still
   stored.
   */
  lemma ReplacedNeverPosts(w: World, e: Event, g: nat, events: seq<Event>)
    requires Inv(w) && e.Arm? && Can(w, e) && g < |w.infos| && w.infos[g].id == w.pending[e.thread]
    requires IsRun(Next(w, e), events)
    ensures var w' := Exec(Next(w, e), events);
      g < |w.fires| && g < |w'.fires| && w'.fires[g] == w.fires[g] && !Live(w', g)
  {
    hide HistoryOk, LowerBound, LiveOk, Live;
    var a := Next(w, e);
    StepKeeps(w, e);
    LiveIsAtId(a, g);
    DeadForever(a, events, g);
  }

  lemma {:induction false} InfosGrow(w: World, events: seq<Event>)
    requires IsRun(w, events)
    ensures w.infos <= Exec(w, events).infos
    decreases |events|
  {
    hide Step;
    if events != [] {
      assert Can(w, events[0]) by { StepCan(w, events[0]); }
      InfosGrow(Next(w, events[0]), events[1..]);
    }
  }

  lemma StepCan(w: World, e: Event)
    requires Step(w, e)
    ensures Can(w, e)
  {
  }

  /**
   Two threads that hold the same id: whatever happens between their set-ups and afterwards, the timer of
   the first posts no more from the second set-up on, although nobody removed it.
   */
  lemma ClashLosesTimer(w: World, first: Event, between: seq<Event>, second: Event, after: seq<Event>)
    requires Inv(w) && first.Arm? && Can(w, first) && IsRun(Next(w, first), between)
    requires var w2 := Exec(Next(w, first), between);
      second.Arm? && Can(w2, second) && w2.pending[second.thread] == w.pending[first.thread] &&
          IsRun(Next(w2, second), after)
    ensures var g := |w.infos|; var w2 := Exec(Next(w, first), between); var w' := Exec(Next(w2, second), after);
      g < |w2.fires| && g < |w'.fires| && w'.fires[g] == w2.fires[g] && !Live(w', g)
  {
    hide Inv;
    var w1, g := Next(w, first), |w.infos|;
    StepKeeps(w, first);
    EveryRunKeeps(w1, between);
    InfosGrow(w1, between);
    assert w1.infos[g].id == w.pending[first.thread];
    ReplacedNeverPosts(Exec(w1, between), second, g, after);
  }

  // ----- a run in which it happens

  /** One task without timers. */
  const ONE_TASK := World(map[0 := TaskTimers(map[], None)], map[], [], [])

  /** Threads 1 and 2 choose the same id before either stores its timer. */
  const CLASH: seq<Event> := [Choose(1, 0, 7), Choose(2, 0, 7), Arm(1, 100, 1, 0, false), Arm(2, 100, 2, 0, false)]

  lemma ClashHappens()
    ensures Initial(ONE_TASK) && IsRun(ONE_TASK, CLASH)
    ensures var r := Exec(ONE_TASK, CLASH);
      && !AllFree(ONE_TASK, CLASH) && |r.infos| == 2 && r.fires == [[], []] && !Live(r, 0) && Live(r, 1)
  {
    var id := MakeId(0, 7);
    assert Owner(id) == 0;
    var w0 := ONE_TASK;
    var w1 := Next(w0, CLASH[0]);
    var w2 := Next(w1, CLASH[1]);
    var w3 := Next(w2, CLASH[2]);
    var w4 := Next(w3, CLASH[3]);
    var e1, e2, e3, e4 := CLASH[1..], CLASH[1..][1..], CLASH[1..][1..][1..], CLASH[1..][1..][1..][1..];
    assert e1[0] == CLASH[1] && e2[0] == CLASH[2] && e3[0] == CLASH[3] && e4 == [];
    assert IsRun(w4, e4) && Exec(w4, e4) == w4;
    assert IsRun(w3, e3) && Exec(w3, e3) == Exec(w4, e4);
    assert !AllFree(w3, e3);
    assert IsRun(w2, e2) && Exec(w2, e2) == w4;
    assert IsRun(w1, e1) && Exec(w1, e1) == w4;
    assert w4.tasks[0].timers[id].gen == 1;
  }
}
