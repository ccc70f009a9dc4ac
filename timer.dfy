/** The software timer registry. Every timer is a small state machine
    (enabled, once, timeout, expireTime); all started timers sit in one
    shared list, which ProcessTimers services. Stopping a timer only
    disables it and raises the shared `timerStopped` flag; the next
    ProcessTimers drops the disabled timers from the list. Durations and
    time stamps are integers of milliseconds, and GetTime() is the
    parameter `now`. The Expired callback is recorded in the log `fired`. */
module Timers {
  /** The fields of one timer. */
  datatype TimerState = TimerState(enabled: bool, once: bool, timeout: int, expireTime: int)

  /** Timer::Difference */
  function Difference(time1: int, time2: int): int
  {
    time2 - time1
  }

  /** Difference measures how far the second stamp lies after the first:
      zero for equal stamps, and additive over an intermediate stamp. */
  lemma DifferenceProperties(t1: int, t2: int, t3: int)
    ensures Difference(t1, t1) == 0
    ensures Difference(t1, t3) == Difference(t1, t2) + Difference(t2, t3)
    ensures Difference(t2, t1) == -Difference(t1, t2)
  {
  }

  /** The outcome of CheckExpired on one timer: its new fields, whether the
      Expired callback was called, and whether the shared stopped flag was
      raised. */
  datatype Checked = Checked(state: TimerState, fired: bool, stopped: bool)

  /** Timer::CheckExpired: an enabled timer whose timeout has elapsed fires.
      A one-shot timer then disables itself and raises the stopped flag; a
      periodic one moves its expiry one timeout on, or to `now` when that
      still leaves it more than a timeout behind. */
  function CheckTimer(s: TimerState, now: int): (c: Checked)
    ensures c.fired <==> s.enabled && Difference(s.expireTime, now) >= s.timeout
    ensures !c.fired ==> c.state == s && !c.stopped
    ensures c.stopped <==> c.fired && s.once
    ensures c.fired && s.once ==> c.state == s.(enabled := false)
    ensures c.fired && !s.once ==> c.state.enabled && c.state.once == s.once && c.state.timeout == s.timeout
  {
    if !s.enabled then Checked(s, false, false)
    else if Difference(s.expireTime, now) < s.timeout then Checked(s, false, false)
    else if s.once then Checked(s.(enabled := false), true, true)
    else
      var next := s.expireTime + s.timeout;
      if Difference(next, now) > s.timeout then Checked(s.(expireTime := now), true, false)
      else Checked(s.(expireTime := next), true, false)
  }

  /** The catch-up rule: after a periodic timer fires, `now` lies between
      its new expiry and one timeout past it. */
  lemma PeriodicCatchUp(s: TimerState, now: int)
    requires WellFormed(s) && CheckTimer(s, now).fired && !s.once
    ensures 0 <= Difference(CheckTimer(s, now).state.expireTime, now) <= s.timeout
  {
  }

  /** A periodic timer that fires again without falling behind keeps its
      phase: its expiry advances by exactly one timeout. */
  lemma PeriodicKeepsPhase(s: TimerState, now: int)
    requires CheckTimer(s, now).fired && !s.once
    requires Difference(s.expireTime, now) <= 2 * s.timeout
    ensures CheckTimer(s, now).state.expireTime == s.expireTime + s.timeout
  {
  }

  /** A one-shot timer fires at most once per Start: once it has fired,
      no later check fires it. */
  lemma OneShotFiresOnce(s: TimerState, now1: int, now2: int)
    requires s.once && CheckTimer(s, now1).fired
    ensures !CheckTimer(CheckTimer(s, now1).state, now2).fired
  {
  }

  /** An enabled timer is never checked with a non-positive timeout, because
      Start rejects one; every check keeps that so. */
  ghost predicate WellFormed(s: TimerState)
  {
    s.enabled ==> s.timeout > 0
  }

  lemma CheckKeepsWellFormed(s: TimerState, now: int)
    requires WellFormed(s)
    ensures WellFormed(CheckTimer(s, now).state)
  {
  }

  class Timer {
    var enabled: bool
    var once: bool
    var timeout: int
    var expireTime: int

    function State(): TimerState
      reads this
    {
      TimerState(enabled, once, timeout, expireTime)
    }

    /** A new timer is disabled and periodic with zero timeout and expiry. */
    constructor ()
      ensures State() == TimerState(false, false, 0, 0)
    {
      enabled, once, timeout, expireTime := false, false, 0, 0;
    }

    /** Timer::Enabled */
    function Enabled(): (b: bool)
      reads this
      ensures b <==> State().enabled
    {
      enabled
    }
  }

  /** No timer appears twice in the list. */
  ghost predicate Distinct(ts: seq<Timer>)
  {
    forall i, j :: 0 <= i < j < |ts| ==> ts[i] != ts[j]
  }

  /** The fields of each listed timer, in list order. */
  function StatesOf(ts: seq<Timer>): (r: seq<TimerState>)
    reads set t | t in ts
    ensures |r| == |ts| && forall k :: 0 <= k < |ts| ==> r[k] == ts[k].State()
  {
    if ts == [] then [] else StatesOf(ts[..|ts| - 1]) + [ts[|ts| - 1].State()]
  }

  /** remove_if(TimerDisabled): the enabled timers, in their order. */
  function KeepEnabled(ts: seq<Timer>): (r: seq<Timer>)
    reads set t | t in ts
    ensures forall t :: t in r ==> t in ts && t.enabled
    ensures forall k :: 0 <= k < |ts| && ts[k].enabled ==> ts[k] in r
    ensures |r| <= |ts|
  {
    if ts == [] then []
    else KeepEnabled(ts[..|ts| - 1]) + (if ts[|ts| - 1].enabled then [ts[|ts| - 1]] else [])
  }

  /** Filtering keeps a list free of duplicates. */
  lemma {:induction false} KeepEnabledDistinct(ts: seq<Timer>)
    requires Distinct(ts)
    ensures Distinct(KeepEnabled(ts))
    decreases |ts|
  {
    if ts != [] {
      var init := ts[..|ts| - 1];
      assert Distinct(init);
      KeepEnabledDistinct(init);
      assert ts[|ts| - 1] !in init;
    }
  }

  /** Filtering a list whose timers are all enabled removes nothing. */
  lemma {:induction false} KeepEnabledAllEnabled(ts: seq<Timer>)
    requires forall k :: 0 <= k < |ts| ==> ts[k].enabled
    ensures KeepEnabled(ts) == ts
    decreases |ts|
  {
    if ts != [] {
      KeepEnabledAllEnabled(ts[..|ts| - 1]);
      assert ts[..|ts| - 1] + [ts[|ts| - 1]] == ts;
    }
  }

  /** The timers among `ts` whose check at `now` fires, given their states. */
  function FiredTimers(ts: seq<Timer>, sts: seq<TimerState>, now: int): seq<Timer>
    requires |ts| == |sts|
  {
    if ts == [] then []
    else
      FiredTimers(ts[..|ts| - 1], sts[..|sts| - 1], now)
      + (if CheckTimer(sts[|sts| - 1], now).fired then [ts[|ts| - 1]] else [])
  }

  /** Whether the check at `now` of any of these states raises the flag. */
  function AnyStops(sts: seq<TimerState>, now: int): (b: bool)
    ensures b <==> exists k :: 0 <= k < |sts| && CheckTimer(sts[k], now).stopped
  {
    if sts == [] then false
    else AnyStops(sts[..|sts| - 1], now) || CheckTimer(sts[|sts| - 1], now).stopped
  }

  /** The shared list of started timers with the shared stopped flag. */
  class TimerRegistry {
    var timers: seq<Timer>
    var timerStopped: bool
    /** The timers whose Expired callback was called, in order. */
    var fired: seq<Timer>

    ghost predicate Valid()
      reads this
    {
      Distinct(timers)
    }

    constructor ()
      ensures Valid() && timers == [] && !timerStopped && fired == []
    {
      timers, timerStopped, fired := [], false, [];
    }

    /** Timer::Start: a non-positive timeout is rejected (the source throws)
        with nothing changed. Otherwise the timer is armed from `now` and
        enters the list unless it is already in it. */
    method Start(t: Timer, timeout: int, once: bool, now: int) returns (ok: bool)
      requires Valid()
      modifies this`timers, t
      ensures Valid()
      ensures ok <==> timeout > 0
      ensures !ok ==> timers == old(timers) && t.State() == old(t.State())
      ensures ok ==> t.State() == TimerState(true, once, timeout, now)
      ensures ok ==> timers == if t in old(timers) then old(timers) else old(timers) + [t]
    {
      if timeout <= 0 {
        return false;
      }
      t.timeout := timeout;
      t.once := once;
      t.expireTime := now;
      t.enabled := true;
      var found := t in timers;
      if !found {
        timers := timers + [t];
      }
      return true;
    }

    /** Start with `once` at its default: a periodic timer. */
    method StartPeriodic(t: Timer, timeout: int, now: int) returns (ok: bool)
      requires Valid()
      modifies this`timers, t
      ensures Valid()
      ensures ok <==> timeout > 0
      ensures ok ==> t.State() == TimerState(true, false, timeout, now) && t in timers
    {
      ok := Start(t, timeout, false, now);
    }

    /** Timer::Stop: disable the timer and raise the flag; the list is not
        touched. */
    method Stop(t: Timer)
      modifies t`enabled, this`timerStopped
      ensures t.State() == old(t.State()).(enabled := false)
      ensures timerStopped
    {
      t.enabled := false;
      timerStopped := true;
    }

    /** Timer::~Timer: the timer leaves the list, which otherwise keeps its
        order. */
    method Destroy(t: Timer)
      requires Valid()
      modifies this`timers
      ensures Valid()
      ensures t !in timers
      ensures t in old(timers) ==> exists i :: 0 <= i < |old(timers)| && old(timers)[i] == t
                                                && timers == old(timers)[..i] + old(timers)[i + 1..]
      ensures t !in old(timers) ==> timers == old(timers)
    {
      var i := 0;
      while i < |timers| && timers[i] != t
        invariant 0 <= i <= |timers|
        invariant t !in timers[..i]
      {
        i := i + 1;
      }
      if i < |timers| {
        ghost var before := timers;
        timers := timers[..i] + timers[i + 1..];
        assert t !in before[..i] && t !in before[i + 1..] by {
          forall k | i < k < |before| ensures before[k] != t {
            assert before[i] != before[k];
          }
        }
        assert forall a, b :: 0 <= a < b < |timers| ==>
          timers[a] == before[if a < i then a else a + 1] && timers[b] == before[if b < i then b else b + 1];
      } else {
        assert timers[..i] == timers;
      }
    }

    /** Timer::CheckExpired on one timer. */
    method CheckExpired(t: Timer, now: int)
      modifies t, this`timerStopped, this`fired
      ensures var c := CheckTimer(old(t.State()), now);
              && t.State() == c.state
              && timerStopped == (old(timerStopped) || c.stopped)
              && fired == old(fired) + (if c.fired then [t] else [])
    {
      if !t.enabled {
        return;
      }
      if Difference(t.expireTime, now) < t.timeout {
        return;
      }
      if t.once {
        t.enabled := false;
        timerStopped := true;
      } else {
        t.expireTime := t.expireTime + t.timeout;
        if Difference(t.expireTime, now) > t.timeout {
          t.expireTime := now;
        }
      }
      fired := fired + [t];
    }

    /** The clean-up step of ProcessTimers: when the flag is raised, the
        disabled timers leave the list and the flag is cleared. */
    method Purge()
      requires Valid()
      modifies this`timers, this`timerStopped
      ensures Valid() && !timerStopped
      ensures timers == old(if timerStopped then KeepEnabled(timers) else timers)
    {
      if timerStopped {
        KeepEnabledDistinct(timers);
        timers := KeepEnabled(timers);
        timerStopped := false;
      }
    }

    /** The walk of ProcessTimers: every listed timer is checked once, in
        list order. */
    method CheckAll(now: int)
      requires Valid() && !timerStopped
      modifies this`timerStopped, this`fired, timers
      ensures timers == old(timers)
      ensures var list := timers;
              forall k :: 0 <= k < |list| ==> list[k].State() == CheckTimer(old(StatesOf(list))[k], now).state
      ensures var list := timers; fired == old(fired) + FiredTimers(list, old(StatesOf(list)), now)
      ensures var list := timers; timerStopped == AnyStops(old(StatesOf(list)), now)
    {
      var list := timers;
      ghost var sts := StatesOf(list);
      var i := 0;
      while i < |list|
        invariant 0 <= i <= |list| && timers == list
        invariant forall k :: 0 <= k < i ==> list[k].State() == CheckTimer(sts[k], now).state
        invariant forall k :: i <= k < |list| ==> list[k].State() == sts[k]
        invariant fired == old(fired) + FiredTimers(list[..i], sts[..i], now)
        invariant timerStopped == AnyStops(sts[..i], now)
      {
        var t := list[i];
        CheckExpired(t, now);
        assert forall k :: 0 <= k < |list| && k != i ==> list[k] != t;
        assert list[..i + 1][..i] == list[..i] && sts[..i + 1][..i] == sts[..i];
        i := i + 1;
      }
      assert list[..i] == list && sts[..i] == sts;
    }

    /** Timer::ProcessTimers: the clean-up, then the walk. Timers the
        clean-up dropped are not touched. */
    method ProcessTimers(now: int)
      requires Valid()
      modifies this, timers
      ensures Valid()
      ensures timers == old(if timerStopped then KeepEnabled(timers) else timers)
      ensures forall t :: t in timers ==> t.State() == CheckTimer(old(t.State()), now).state
      ensures forall t :: t in old(timers) && t !in timers ==> t.State() == old(t.State())
      ensures var list := timers; fired == old(fired) + FiredTimers(list, old(StatesOf(list)), now)
      ensures var list := timers; timerStopped == AnyStops(old(StatesOf(list)), now)
    {
      Purge();
      ghost var list := timers;
      assert StatesOf(list) == old(StatesOf(list));
      CheckAll(now);
      forall t | t in timers
        ensures t.State() == CheckTimer(old(t.State()), now).state
      {
        var k :| 0 <= k < |list| && list[k] == t;
        assert old(StatesOf(list))[k] == old(t.State());
      }
    }
  }
}
