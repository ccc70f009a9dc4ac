/** The STM32 demo's ServerApp: client commands start and stop a polling
    timer, actuator commands set actuator positions, each poll sends data and
    every tenth one raises a simulated alarm, and a circuit breaker counts
    consecutive failed sends and stops polling when the client seems lost.
    The poll timer is a Timers.Timer in the shared registry; the timer
    connection is the flag `pollConnected`. Sending, alarms and LEDs are
    outside the model apart from the alarm count. */
module ServerApplication {
  import opened Timers

  const MAX_CONSECUTIVE_ERRORS: int := 5
  /** PollData raises an alarm on every tenth call. */
  const ALARM_PERIOD: int := 10

  /** TransportMonitor::Status as the breaker sees it. */
  datatype SendStatus = Success | Failure

  /** CommandMsg::Action; any other value is ignored. */
  datatype Action = StartCmd | StopCmd | OtherCmd(code: int)

  /** The counter step on a failed send: it stops growing past the limit. */
  function FailStep(count: int): int
  {
    if count <= MAX_CONSECUTIVE_ERRORS then count + 1 else count
  }

  /** The counter after n consecutive failures from zero. */
  function ErrorsAfter(n: nat): int
  {
    if n == 0 then 0 else FailStep(ErrorsAfter(n - 1))
  }

  /** n failures in a row leave the counter at min(n, 6), never above it. */
  lemma {:induction false} ErrorsSaturate(n: nat)
    ensures ErrorsAfter(n) == if n <= MAX_CONSECUTIVE_ERRORS + 1 then n else MAX_CONSECUTIVE_ERRORS + 1
  {
    if n > 0 {
      ErrorsSaturate(n - 1);
    }
  }

  /** In a run of failures from zero the counter reaches the limit on
      exactly one of them, the fifth, so polling is stopped once. */
  lemma TripsExactlyOnce(n: nat)
    requires n >= 1
    ensures ErrorsAfter(n) == MAX_CONSECUTIVE_ERRORS <==> n == MAX_CONSECUTIVE_ERRORS
  {
    ErrorsSaturate(n);
  }

  /** How many of the first n calls of PollData raise an alarm. */
  function AlarmCount(n: nat): nat
  {
    if n == 0 then 0
    else AlarmCount(n - 1) + (if (n - 1) % ALARM_PERIOD == 0 then 1 else 0)
  }

  /** The 1st, 11th, 21st, ... calls raise alarms: ceil(n / 10) of the
      first n. */
  lemma {:induction false} AlarmCadence(n: nat)
    ensures AlarmCount(n) == (n + ALARM_PERIOD - 1) / ALARM_PERIOD
  {
    if n > 0 {
      AlarmCadence(n - 1);
    }
  }

  class ServerApp {
    var consecutiveErrors: int
    var pollConnected: bool
    /** The static errCnt of PollData. */
    var errCnt: int
    var alarms: nat
    var actuator1: int
    var actuator2: int
    const pollTimer: Timer
    const registry: TimerRegistry

    ghost predicate Valid()
      reads this, registry
    {
      registry.Valid() && 0 <= consecutiveErrors <= MAX_CONSECUTIVE_ERRORS + 1 && errCnt >= 0
    }

    constructor (registry: TimerRegistry)
      requires registry.Valid()
      ensures Valid() && fresh(pollTimer) && this.registry == registry
      ensures consecutiveErrors == 0 && !pollConnected && errCnt == 0 && alarms == 0
      ensures pollTimer.State() == TimerState(false, false, 0, 0)
    {
      consecutiveErrors, pollConnected, errCnt, alarms := 0, false, 0, 0;
      actuator1, actuator2 := 0, 0;
      pollTimer := new Timer();
      this.registry := registry;
    }

    /** StartPolling: the counter is always reset; the timer is connected
        and started only when not already connected. A zero poll time makes
        Timer::Start throw after the connection was made. */
    method StartPolling(pollTime: nat, now: int) returns (thrown: bool)
      requires Valid()
      modifies this`consecutiveErrors, this`pollConnected, registry`timers, pollTimer
      ensures Valid()
      ensures consecutiveErrors == 0 && pollConnected
      ensures old(pollConnected) ==> !thrown && registry.timers == old(registry.timers)
                                     && pollTimer.State() == old(pollTimer.State())
      ensures !old(pollConnected) ==> (thrown <==> pollTime == 0)
      ensures !old(pollConnected) && pollTime > 0 ==>
                pollTimer.State() == TimerState(true, false, pollTime, now) && pollTimer in registry.timers
    {
      consecutiveErrors := 0;
      thrown := false;
      if !pollConnected {
        pollConnected := true;
        var ok := registry.StartPeriodic(pollTimer, pollTime, now);
        thrown := !ok;
      }
    }

    /** StopPolling: only a connected timer is stopped and disconnected. */
    method StopPolling()
      modifies this`pollConnected, pollTimer`enabled, registry`timerStopped
      ensures !pollConnected
      ensures old(pollConnected) ==> pollTimer.State() == old(pollTimer.State()).(enabled := false)
                                     && registry.timerStopped
      ensures !old(pollConnected) ==> pollTimer.State() == old(pollTimer.State())
                                      && registry.timerStopped == old(registry.timerStopped)
    {
      if pollConnected {
        registry.Stop(pollTimer);
        pollConnected := false;
      }
    }

    /** CommandMsgRecv */
    method CommandMsgRecv(action: Action, pollTime: nat, now: int) returns (thrown: bool)
      requires Valid()
      modifies this`consecutiveErrors, this`pollConnected, registry`timers, registry`timerStopped, pollTimer
      ensures Valid()
      ensures action.StartCmd? ==> consecutiveErrors == 0 && pollConnected
      ensures action.StopCmd? ==> !pollConnected && !thrown
      ensures action.OtherCmd? ==> !thrown && consecutiveErrors == old(consecutiveErrors)
                                   && pollConnected == old(pollConnected)
                                   && pollTimer.State() == old(pollTimer.State())
                                   && registry.timers == old(registry.timers)
    {
      thrown := false;
      if action == StartCmd {
        thrown := StartPolling(pollTime, now);
      } else if action == StopCmd {
        StopPolling();
      }
    }

    /** ActuatorMsgRecv: ids 1 and 2 name the two actuators. */
    method ActuatorMsgRecv(actuatorId: int, position: int)
      modifies this`actuator1, this`actuator2
      ensures actuator1 == (if actuatorId == 1 then position else old(actuator1))
      ensures actuator2 == (if actuatorId == 2 then position else old(actuator2))
    {
      if actuatorId == 1 {
        actuator1 := position;
      } else if actuatorId == 2 {
        actuator2 := position;
      }
    }

    /** PollData: an alarm when the call count before this call is a
        multiple of ten. */
    method PollData() returns (alarm: bool)
      requires Valid()
      modifies this`errCnt, this`alarms
      ensures Valid()
      ensures errCnt == old(errCnt) + 1
      ensures alarm <==> old(errCnt) % ALARM_PERIOD == 0
      ensures alarms == old(alarms) + (if alarm then 1 else 0)
    {
      var before := errCnt;
      errCnt := errCnt + 1;
      alarm := before % ALARM_PERIOD == 0;
      if alarm {
        alarms := alarms + 1;
      }
    }

    /** SendStatusHandler, the circuit breaker: a success resets the
        counter; a failure advances it (up to one past the limit) and stops
        polling exactly when it lands on the limit. */
    method SendStatusHandler(status: SendStatus)
      requires Valid()
      modifies this`consecutiveErrors, this`pollConnected, pollTimer`enabled, registry`timerStopped
      ensures Valid()
      ensures status == Success ==> consecutiveErrors == 0
      ensures status == Failure ==> consecutiveErrors == FailStep(old(consecutiveErrors))
      ensures status == Failure && consecutiveErrors == MAX_CONSECUTIVE_ERRORS ==> !pollConnected
      ensures !(status == Failure && consecutiveErrors == MAX_CONSECUTIVE_ERRORS) ==>
                pollConnected == old(pollConnected) && pollTimer.State() == old(pollTimer.State())
    {
      if status == Success {
        if consecutiveErrors > 0 {
          consecutiveErrors := 0;
        }
      } else {
        if consecutiveErrors <= MAX_CONSECUTIVE_ERRORS {
          consecutiveErrors := consecutiveErrors + 1;
        }
        if consecutiveErrors == MAX_CONSECUTIVE_ERRORS {
          StopPolling();
        }
      }
    }
  }
}
