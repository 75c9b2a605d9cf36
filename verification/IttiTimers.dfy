/**
 Timers of the ITTI tasks (intertask_interface.cpp): a map of timers per task, a cached earliest
 timeout, set-up, removal and the scan that posts expired timers. `next_timer == UINT64_MAX` is
 modelled by None; times are unbounded naturals.
 */
module IttiTimers {
  import opened Bytes

  /** `gen` numbers the set-ups, so that a reused id is not confused with its earlier owner. */
  datatype Armed = Armed(periodic: bool, duration: nat, timeout: nat, gen: nat)

  type Timers = map<nat, Armed>

  predicate Expired(a: Armed, now: nat) {
    a.timeout < now
  }

  /** Expired one-shots do not survive the scan; an expired periodic timer moves on by one period. */
  predicate Survives(a: Armed, now: nat) {
    Expired(a, now) ==> a.periodic
  }

  function Aged(a: Armed, now: nat): (r: Armed) {
    if Expired(a, now) then a.(timeout := a.timeout + a.duration) else a
  }

  function Scanned(timers: Timers, now: nat): (r: Timers) {
    map id | id in timers && Survives(timers[id], now) :: Aged(timers[id], now)
  }

  ghost predicate LowerBound(next: Option<nat>, timers: Timers) {
    match next
    case None => timers == map[]
    case Some(n) => forall id :: id in timers ==> n <= timers[id].timeout
  }

  /** The earliest timeout, exactly. */
  ghost predicate Earliest(next: Option<nat>, timers: Timers) {
    && LowerBound(next, timers)
    && (next.Some? ==> exists id :: id in timers && timers[id].timeout == next.value)
  }

  /** Ids of expired timers, in ascending order. */
  ghost predicate InOrder(posts: seq<nat>, timers: Timers, now: nat) {
    && (forall i, j :: 0 <= i < j < |posts| ==> posts[i] < posts[j])
    && (forall id :: id in posts <==> id in timers && Expired(timers[id], now))
  }

  /** Some one-shot has expired. */
  ghost predicate OneShotDue(timers: Timers, now: nat) {
    exists id :: id in timers && !Survives(timers[id], now)
  }

  /** Some timer visited so far was an expired one-shot. */
  ghost predicate ErasedAmong(before: Timers, todo: set<nat>, now: nat) {
    exists id :: id in before && id !in todo && !Survives(before[id], now)
  }

  lemma ErasedVisit(before: Timers, todo: set<nat>, now: nat, id: nat)
    requires id in todo && id in before
    ensures ErasedAmong(before, todo - {id}, now) <==> ErasedAmong(before, todo, now) || !Survives(before[id], now)
  {
    if !Survives(before[id], now) {
      assert id !in todo - {id};
    }
    if ErasedAmong(before, todo, now) {
      var j :| j in before && j !in todo && !Survives(before[j], now);
      assert j !in todo - {id};
    }
  }

  /** The fields of one task that the timer code updates. */
  class TimerTask {
    var timers: Timers
    var next: Option<nat>
    var queue: seq<nat>
    var sem: nat

    ghost predicate Valid()
      reads this
    {
      LowerBound(next, timers)
    }

    constructor ()
      ensures Valid() && timers == map[] && next == None && queue == [] && sem == 0
    {
      timers, next, queue, sem := map[], None, [], 0;
    }

    /** A new timer, and a token so that a sleeping task recomputes its timeout. */
    method Setup(id: nat, a: Armed)
      requires Valid()
      modifies this
      ensures Valid() && timers == old(timers)[id := a]
      ensures sem == old(sem) + 1 && queue == old(queue)
      ensures id !in old(timers) && Earliest(old(next), old(timers)) ==> Earliest(next, timers)
    {
      timers := timers[id := a];
      if next.None? || a.timeout < next.value {
        next := Some(a.timeout);
      }
      sem := sem + 1;
      if id !in old(timers) && Earliest(old(next), old(timers)) {
        NewEarliest(old(next), old(timers), id, a);
      }
    }

    method Remove(id: nat) returns (ret: nat)
      requires Valid()
      modifies this
      ensures Valid() && timers == old(timers) - {id}
      ensures ret == 0 <==> id in old(timers)
      ensures sem == old(sem) && queue == old(queue) && next == old(next)
    {
      ret := if id in timers then 0 else 1;
      timers := timers - {id};
    }

    /**
     The scan: messages for all expired timers in the order of their ids, and the new earliest timeout.
     `dangling`: some turn of the loop has erased the element that its iterator is then advanced from, which
     C++ leaves undefined; the rest of the contract is what happens if the loop goes on with the next timer.
     */
    method Scan(now: nat) returns (posts: seq<nat>, dangling: bool)
      requires Valid()
      modifies this
      ensures InOrder(posts, old(timers), now)
      ensures timers == Scanned(old(timers), now)
      ensures old(next).None? || old(next).value >= now ==> posts == [] && next == old(next) && timers == old(timers)
      ensures old(next).Some? && old(next).value < now ==> Earliest(next, timers)
      ensures Valid()
      ensures queue == Reversed(posts) + old(queue) && sem == old(sem) + |posts|
      ensures dangling <==> OneShotDue(old(timers), now)
    {
      posts, dangling := [], false;
      if next.None? || next.value >= now {
        NothingExpired(timers, next, now);
        return;
      }
      ghost var before := timers;
      next := None;
      var todo := timers.Keys;
      while todo != {}
        invariant ScanState(before, todo, timers, next, posts, now)
        invariant queue == Reversed(posts) + old(queue) && sem == old(sem) + |posts|
        invariant dangling <==> ErasedAmong(before, todo, now)
        decreases todo
      {
        hide ScanState, ErasedAmong;
        var id := Least(todo);
        ScanVisits(before, todo, timers, next, posts, now, id);
        ErasedVisit(before, todo, now, id);
        todo := todo - {id};
        var erased;
        posts, erased := Visit(id, now, posts, old(queue));
        dangling := dangling || erased;
      }
      ScanEnds(before, timers, next, posts, now);
    }

    /** One timer of the scan. */
    method Visit(id: nat, now: nat, sofar: seq<nat>, ghost q: seq<nat>) returns (posts: seq<nat>, erased: bool)
      requires id in timers && queue == Reversed(sofar) + q
      modifies this
      ensures timers == VisitedTimers(old(timers), id, now) && next == VisitedNext(old(next), old(timers)[id], now)
      ensures posts == if Expired(old(timers)[id], now) then sofar + [id] else sofar
      ensures queue == Reversed(posts) + q
      ensures sem + |sofar| == old(sem) + |posts|
      ensures erased <==> !Survives(old(timers)[id], now)
    {
      hide Reversed;
      var e := timers[id];
      posts, erased := sofar, false;
      if e.timeout < now {
        queue := [id] + queue;
        sem := sem + 1;
        posts := posts + [id];
        ReversedNext(sofar, id, q);
        if e.periodic {
          timers := timers[id := e.(timeout := e.timeout + e.duration)];
          if next.None? || e.timeout + e.duration < next.value {
            next := Some(e.timeout + e.duration);
          }
        } else {
          timers := timers - {id};
          erased := true;
        }
      } else if next.None? || e.timeout < next.value {
        next := Some(e.timeout);
      }
    }
  }

  // ----- the scan, timer by timer

  /** What has become of one timer. */
  predicate Done(before: Timers, timers: Timers, id: nat, now: nat)
    requires id in before
  {
    (id in timers <==> Survives(before[id], now)) && (id in timers ==> timers[id] == Aged(before[id], now))
  }

  /** The timers not in `todo` have been visited, in ascending order. */
  ghost predicate ScanState(before: Timers, todo: set<nat>, timers: Timers, next: Option<nat>, posts: seq<nat>,
      now: nat) {
    && todo <= before.Keys && timers.Keys <= before.Keys
    && (forall id, done :: id in todo && done in before && done !in todo ==> done < id)
    && (forall id :: id in todo ==> id in timers && timers[id] == before[id])
    && (forall id :: id in before && id !in todo ==> Done(before, timers, id, now))
    && NextOk(before, todo, next, now)
    && PostsOk(before, todo, posts, now)
  }

  ghost predicate NextOk(before: Timers, todo: set<nat>, next: Option<nat>, now: nat) {
    && (forall id :: id in before && id !in todo && Survives(before[id], now) ==>
          next.Some? && next.value <= Aged(before[id], now).timeout)
    && (next.Some? ==>
          exists id :: id in before && id !in todo && Survives(before[id], now) &&
                       Aged(before[id], now).timeout == next.value)
  }

  ghost predicate PostsOk(before: Timers, todo: set<nat>, posts: seq<nat>, now: nat) {
    && (forall i, j :: 0 <= i < j < |posts| ==> posts[i] < posts[j])
    && (forall id :: id in posts <==> id in before && id !in todo && Expired(before[id], now))
  }

  lemma ScanEnds(before: Timers, timers: Timers, next: Option<nat>, posts: seq<nat>, now: nat)
    requires ScanState(before, {}, timers, next, posts, now)
    ensures InOrder(posts, before, now) && timers == Scanned(before, now) && Earliest(next, timers)
  {
    assert forall id :: id in before ==> Done(before, timers, id, now);
    if next.Some? {
      var id :| id in before && Survives(before[id], now) && Aged(before[id], now).timeout == next.value;
      assert id in timers && timers[id].timeout == next.value;
    }
  }

  function VisitedTimers(timers: Timers, id: nat, now: nat): (r: Timers)
    requires id in timers
  {
    var e := timers[id];
    if !Expired(e, now) then timers
    else if e.periodic then timers[id := e.(timeout := e.timeout + e.duration)]
    else timers - {id}
  }

  function VisitedNext(next: Option<nat>, e: Armed, now: nat): (r: Option<nat>) {
    var due := Aged(e, now).timeout;
    if !Survives(e, now) then next
    else if next.None? || due < next.value then Some(due) else next
  }

  lemma NextVisits(before: Timers, todo: set<nat>, next: Option<nat>, now: nat, id: nat)
    requires NextOk(before, todo, next, now) && id in todo && id in before
    ensures NextOk(before, todo - {id}, VisitedNext(next, before[id], now), now)
  {
    var rest, after := todo - {id}, VisitedNext(next, before[id], now);
    if next.Some? {
      var w :| w in before && w !in todo && Survives(before[w], now) && Aged(before[w], now).timeout == next.value;
      assert w !in rest;
    }
    assert id !in rest;
    assert after.Some? ==> after == next || Aged(before[id], now).timeout == after.value;
  }

  lemma PostsVisit(before: Timers, todo: set<nat>, posts: seq<nat>, now: nat, id: nat)
    requires PostsOk(before, todo, posts, now) && id in todo && id in before
    requires forall done :: done in before && done !in todo ==> done < id
    ensures PostsOk(before, todo - {id}, if Expired(before[id], now) then posts + [id] else posts, now)
  {
    if Expired(before[id], now) {
      var more := posts + [id];
      assert forall i :: 0 <= i < |posts| ==> posts[i] in posts;
      assert forall x :: x in more <==> x in posts || x == id;
    }
  }

  lemma ScanVisits(before: Timers, todo: set<nat>, timers: Timers, next: Option<nat>, posts: seq<nat>, now: nat,
      id: nat)
    requires ScanState(before, todo, timers, next, posts, now) && id in todo && forall x :: x in todo ==> id <= x
    ensures id in timers && timers[id] == before[id]
    ensures ScanState(before, todo - {id}, VisitedTimers(timers, id, now), VisitedNext(next, timers[id], now),
                      if Expired(timers[id], now) then posts + [id] else posts, now)
  {
    hide NextOk, PostsOk;
    NextVisits(before, todo, next, now, id);
    PostsVisit(before, todo, posts, now, id);
    var after := VisitedTimers(timers, id, now);
    assert Done(before, after, id, now);
    assert forall x :: x in before && x !in todo ==> Done(before, after, x, now);
  }

  lemma NewEarliest(next: Option<nat>, timers: Timers, id: nat, a: Armed)
    requires Earliest(next, timers) && id !in timers
    ensures Earliest(if next.None? || a.timeout < next.value then Some(a.timeout) else next, timers[id := a])
  {
    var t := timers[id := a];
    assert t[id].timeout == a.timeout;
    if next.Some? {
      var w :| w in timers && timers[w].timeout == next.value;
      assert w in t && t[w].timeout == next.value;
    }
  }

  lemma ReversedNext(s: seq<nat>, x: nat, q: seq<nat>)
    ensures [x] + (Reversed(s) + q) == Reversed(s + [x]) + q
  {
    ReversedLast(s + [x]);
    assert (s + [x])[..|s|] == s;
  }

  predicate IsLeast(r: nat, s: set<nat>) {
    r in s && forall x :: x in s ==> r <= x
  }

  /** The smallest id not yet visited: iteration over the map is in key order. */
  function Least(s: set<nat>): (r: nat)
    requires s != {}
    ensures IsLeast(r, s)
  {
    LeastExists(s);
    LeastUnique(s);
    var r :| r in s && IsLeast(r, s);
    r
  }

  lemma LeastUnique(s: set<nat>)
    ensures forall r, q :: IsLeast(r, s) && IsLeast(q, s) ==> r == q
  {
  }

  lemma {:induction false} LeastExists(s: set<nat>)
    requires s != {}
    ensures exists r :: IsLeast(r, s)
    decreases |s|
  {
    var x :| x in s;
    var rest := s - {x};
    if rest == {} {
      assert s == {x};
      assert IsLeast(x, s);
    } else {
      LeastExists(rest);
      var r :| IsLeast(r, rest);
      assert s == rest + {x};
      assert IsLeast(if x < r then x else r, s);
    }
  }

  lemma NothingExpired(timers: Timers, next: Option<nat>, now: nat)
    requires LowerBound(next, timers) && (next.None? || next.value >= now)
    ensures InOrder([], timers, now) && Scanned(timers, now) == timers
  {
  }
}
