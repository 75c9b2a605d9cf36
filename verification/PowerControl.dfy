/**
 Spacing of PUCCH power-control commands (eNB_scheduler_dlsch.c): the scheduler remembers frame and
 subframe of the last command, frames are counted modulo 1024, and a two-branch test decides
 whether a new command may be sent.
 */
module PowerControl {

  /** Subframes in one turn of the frame counter. */
  const WRAP: nat := 10240

  /** Frame and subframe of an unbounded subframe clock. */
  function FrameOf(t: nat): (r: nat) { t / 10 % 1024 }
  function SubframeOf(t: nat): (r: nat) { t % 10 }

  /** The test of the source on frame and subframe numbers. */
  predicate MayUpdate(lastFrame: nat, lastSubframe: nat, frame: nat, subframe: nat) {
    var last := lastFrame * 10 + lastSubframe;
    last + 10 <= frame * 10 + subframe ||
    (last > frame * 10 + subframe && WRAP - last + frame * 10 + subframe >= 10)
  }

  lemma ClockIsModular(t: nat)
    ensures FrameOf(t) * 10 + SubframeOf(t) == t % WRAP
  {
    var q, r := t / 10, t % 10;
    var u, v := q / 1024, q % 1024;
    assert t == WRAP * u + (10 * v + r);
    assert 10 * v + r < WRAP;
  }

  /** The two branches together measure the distance around the wrap. */
  lemma TestIsDistance(last: nat, now: nat)
    requires last < WRAP && now < WRAP
    ensures (last + 10 <= now || (last > now && WRAP - last + now >= 10)) <==> (now - last) % WRAP >= 10
  {
    if last <= now {
      assert (now - last) % WRAP == now - last;
    } else {
      assert (now - last) % WRAP == now - last + WRAP;
    }
  }

  /** Between two instants of the unbounded clock the test sees their distance modulo one turn. */
  lemma TestOnClock(last: nat, now: nat)
    requires last <= now
    ensures MayUpdate(FrameOf(last), SubframeOf(last), FrameOf(now), SubframeOf(now)) <==> (now - last) % WRAP >= 10
  {
    ClockIsModular(last);
    ClockIsModular(now);
    TestIsDistance(last % WRAP, now % WRAP);
    ModOfDifference(last, now);
  }

  lemma ModOfDifference(a: nat, b: nat)
    requires a <= b
    ensures (b % WRAP - a % WRAP) % WRAP == (b - a) % WRAP
  {
    var qa, qb := a / WRAP, b / WRAP;
    assert b - a == WRAP * (qb - qa) + (b % WRAP - a % WRAP);
    Shift(b % WRAP - a % WRAP, qb - qa);
  }

  lemma Shift(x: int, k: int)
    ensures (WRAP * k + x) % WRAP == x % WRAP
  {
    assert x == WRAP * (x / WRAP) + x % WRAP;
    assert WRAP * k + x == WRAP * (k + x / WRAP) + x % WRAP;
  }

  // ----- runs

  /** A new block at subframe `at`; `measured`: a PUCCH measurement arrived since the block before it. */
  datatype Chance = Chance(at: nat, measured: bool)

  /** Frame and subframe of the last command, and whether a measurement is still unused. */
  datatype Ue = Ue(frame: nat, subframe: nat, pending: bool)

  predicate Updates(u: Ue, c: Chance) {
    MayUpdate(u.frame, u.subframe, FrameOf(c.at), SubframeOf(c.at)) && (u.pending || c.measured)
  }

  function Next(u: Ue, c: Chance): (r: Ue) {
    if Updates(u, c) then Ue(FrameOf(c.at), SubframeOf(c.at), false) else u.(pending := u.pending || c.measured)
  }

  /** The per-UE fields behind the test. */
  class Template {
    var frame: nat
    var subframe: nat
    var pending: bool

    function State(): (r: Ue) reads this { Ue(frame, subframe, pending) }

    /** One new block: the two-bit command put in its DCI, 1 meaning no change. */
    method Command(c: Chance, snr: int, target: int) returns (tpc: nat)
      modifies this
      ensures State() == Next(old(State()), c)
      ensures tpc <= 2
      ensures tpc != 1 <==> Updates(old(State()), c) && (snr > target + 4 || snr < target - 4)
      ensures tpc == 0 ==> snr > target + 4
      ensures tpc == 2 ==> snr < target - 4
    {
      if c.measured { pending := true; }
      tpc := 1;
      if MayUpdate(frame, subframe, FrameOf(c.at), SubframeOf(c.at)) && pending {
        pending := false;
        frame, subframe := FrameOf(c.at), SubframeOf(c.at);
        if snr > target + 4 { tpc := 0; } else if snr < target - 4 { tpc := 2; }
      }
    }
  }

  /** The instants at which commands are sent. */
  function Commands(u: Ue, chances: seq<Chance>): (r: seq<nat>)
    decreases |chances|
  {
    if chances == [] then []
    else (if Updates(u, chances[0]) then [chances[0].at] else []) + Commands(Next(u, chances[0]), chances[1..])
  }

  predicate InOrder(from: nat, chances: seq<Chance>) {
    (forall i :: 0 <= i < |chances| ==> from <= chances[i].at) &&
    forall i, j :: 0 <= i < j < |chances| ==> chances[i].at <= chances[j].at
  }

  /** Every command comes at least 10 subframes after the one before it, the first one after `last`. */
  predicate Spaced(last: nat, commands: seq<nat>) {
    (forall i :: 0 <= i < |commands| ==> commands[i] >= last + 10) &&
    forall i, j :: 0 <= i < j < |commands| ==> commands[j] >= commands[i] + 10
  }

  lemma NoneSpaced(last: nat)
    ensures Spaced(last, [])
  {
  }

  lemma SpacedLonger(last: nat, first: nat, rest: seq<nat>)
    requires first >= last + 10 && Spaced(first, rest)
    ensures Spaced(last, [first] + rest)
  {
  }

  /**
   After a command, however long the run and however often the frame number wraps, the next one is at
   least 10 subframes later.
   */
  lemma {:induction false} CommandsSpaced(last: nat, pending: bool, chances: seq<Chance>)
    requires InOrder(last, chances)
    ensures Spaced(last, Commands(Ue(FrameOf(last), SubframeOf(last), pending), chances))
    decreases |chances|
  {
    hide MayUpdate, FrameOf, SubframeOf, Spaced;
    var u := Ue(FrameOf(last), SubframeOf(last), pending);
    if chances == [] {
      NoneSpaced(last);
    } else {
      var first, rest := chances[0], chances[1..];
      assert InOrder(first.at, rest) && InOrder(last, rest);
      TestOnClock(last, first.at);
      if Updates(u, first) {
        AtLeast(first.at - last);
        CommandsSpaced(first.at, false, rest);
        SpacedLonger(last, first.at, Commands(Next(u, first), rest));
      } else {
        CommandsSpaced(last, pending || first.measured, rest);
        var later := Commands(Next(u, first), rest);
        assert Commands(u, chances) == [] + later == later;
      }
    }
  }

  lemma AtLeast(d: nat)
    requires d % WRAP >= 10
    ensures d >= 10
  {
  }

  /** Measurements that arrive in a run. */
  function Measured(chances: seq<Chance>): (r: nat) {
    if chances == [] then 0 else (if chances[0].measured then 1 else 0) + Measured(chances[1..])
  }

  function Final(u: Ue, chances: seq<Chance>): (r: Ue)
    decreases |chances|
  {
    if chances == [] then u else Final(Next(u, chances[0]), chances[1..])
  }

  /** Every command uses up a measurement: those used and one still unused are no more than those that came. */
  lemma {:induction false} CommandsUseMeasurements(u: Ue, chances: seq<Chance>)
    ensures |Commands(u, chances)| + (if Final(u, chances).pending then 1 else 0) <=
            Measured(chances) + (if u.pending then 1 else 0)
    decreases |chances|
  {
    hide MayUpdate, FrameOf, SubframeOf;
    if chances != [] { CommandsUseMeasurements(Next(u, chances[0]), chances[1..]); }
  }

  /** And a measurement is not lost: if the spacing allows it, the next chance after it is a command. */
  lemma PendingIsUsed(u: Ue, c: Chance)
    requires u.pending || c.measured
    ensures Next(u, c).pending <==> !MayUpdate(u.frame, u.subframe, FrameOf(c.at), SubframeOf(c.at))
    ensures Commands(u, [c]) == if MayUpdate(u.frame, u.subframe, FrameOf(c.at), SubframeOf(c.at)) then [c.at] else []
  {
    hide MayUpdate, FrameOf, SubframeOf;
    assert [c][1..] == [];
    assert Commands(Next(u, c), []) == [];
  }
}
