/**
  `CountDownTimer`: a repeating timer that counts a period down by one on every fire and
  reports through two optional closures.

  The run loop is not modelled: one fire of the scheduled `Timer` is the method `Tick`.
  Closures are identified by a `CallbackRef`; a fire returns the closure invocations it
  makes, in order, each with the value `isRunning` has at that moment. The interval is
  recorded and handed on, never used for arithmetic.
 */
module Timer {
  import opened Wrappers

  /** A closure handed to the timer; the model records which one is called, not what it does. */
  datatype CallbackRef = CallbackRef(id: nat)

  /** The repeating `Timer` that `dispatch` schedules, with what its block captures:
      the counter `timeLeft`, the interval and the two closures. */
  datatype ScheduledTimer = ScheduledTimer(
    timeLeft: int,
    interval: real,
    onTick: Option<CallbackRef>,
    onFinish: Option<CallbackRef>)

  /** One closure invocation made by the timer's block. */
  datatype TimerCall =
    | FinishCall(onFinish: CallbackRef, runningAtCall: bool)
    | TickCall(onTick: CallbackRef, remainingSeconds: int, runningAtCall: bool)

  /** The fields of a `CountDownTimer`; `timer` is the scheduled timer, if any. */
  datatype TimerState = TimerState(
    timer: Option<ScheduledTimer>,
    lastTimerPeriod: int,
    lastTimeInterval: real,
    lastOnTick: Option<CallbackRef>,
    lastOnFinish: Option<CallbackRef>,
    timeLeft: int)

  /** The outcome of fires: the new state and the closure invocations, in order. */
  datatype Fired = Fired(state: TimerState, calls: seq<TimerCall>)

  /** A new `CountDownTimer`: nothing scheduled, period 0, interval 1.0, no closures. */
  const Initial: TimerState := TimerState(None, 0, 1.0, None, None, 0)

  /** `dispatch`: records the session and schedules a timer counting down from `period`. */
  function Dispatched(s: TimerState, period: int, interval: real,
                      onTick: Option<CallbackRef>, onFinish: Option<CallbackRef>): (d: TimerState)
    ensures d.timer.Some? && d.timer.value.timeLeft == period && d.timer.value.interval == interval
    ensures d.timer.value.onTick == onTick && d.timer.value.onFinish == onFinish
    ensures d.lastTimerPeriod == period && d.lastTimeInterval == interval
    ensures d.lastOnTick == onTick && d.lastOnFinish == onFinish && d.timeLeft == period
  {
    TimerState(Some(ScheduledTimer(period, interval, onTick, onFinish)), period, interval, onTick, onFinish, period)
  }

  /** `stop`: the scheduled timer is invalidated and dropped. */
  function Stopped(s: TimerState): (t: TimerState)
    ensures t.timer.None? && SameSession(t, s) && t.timeLeft == s.timeLeft
  {
    s.(timer := None)
  }

  /** `restart`: invalidate, then `dispatch` again with the recorded session. */
  function Restarted(s: TimerState): (t: TimerState)
    ensures SameSession(t, s)
    ensures t.timer == Some(ScheduledTimer(s.lastTimerPeriod, s.lastTimeInterval, s.lastOnTick, s.lastOnFinish))
  {
    Dispatched(Stopped(s), s.lastTimerPeriod, s.lastTimeInterval, s.lastOnTick, s.lastOnFinish)
  }

  function FinishCalls(onFinish: Option<CallbackRef>, running: bool): (calls: seq<TimerCall>)
  {
    if onFinish.Some? then [FinishCall(onFinish.value, running)] else []
  }

  function TickCalls(onTick: Option<CallbackRef>, remaining: int, running: bool): (calls: seq<TimerCall>)
  {
    if onTick.Some? then [TickCall(onTick.value, remaining, running)] else []
  }

  /** One fire of the scheduled timer's block. */
  function Fire(s: TimerState): (f: Fired)
    requires s.timer.Some?
    ensures SameSession(f.state, s)
    ensures f.state.timer.None? <==> s.timer.value.timeLeft <= 1
    ensures |f.calls| <= 2
  {
    var t := s.timer.value;
    var left := t.timeLeft - 1;
    if left <= 0 then
      Fired(Stopped(s), FinishCalls(t.onFinish, false) + TickCalls(t.onTick, left, false))
    else
      Fired(s.(timer := Some(t.(timeLeft := left))), TickCalls(t.onTick, left, true))
  }

  /** Up to `n` fires; an unscheduled timer does not fire. */
  function Run(s: TimerState, n: nat): (f: Fired)
    ensures |f.calls| <= 2 * n
    ensures s.timer.None? ==> f == Fired(s, [])
    decreases n
  {
    if n == 0 || s.timer.None? then Fired(s, [])
    else
      var first := Fire(s);
      var rest := Run(first.state, n - 1);
      Fired(rest.state, first.calls + rest.calls)
  }

  /** The session fields `restart` reads. */
  predicate SameSession(s: TimerState, t: TimerState) {
    && s.lastTimerPeriod == t.lastTimerPeriod
    && s.lastTimeInterval == t.lastTimeInterval
    && s.lastOnTick == t.lastOnTick
    && s.lastOnFinish == t.lastOnFinish
  }

  /** `n` running ticks reporting `from`, `from - 1`, ... */
  function Ticks(onTick: CallbackRef, from: int, n: nat): (calls: seq<TimerCall>)
    ensures |calls| == n
    ensures forall i :: 0 <= i < n ==> calls[i] == TickCall(onTick, from - i, true)
    decreases n
  {
    if n == 0 then [] else [TickCall(onTick, from, true)] + Ticks(onTick, from - 1, n - 1)
  }

  function FinishCount(calls: seq<TimerCall>): (n: nat)
    ensures n <= |calls|
  {
    if calls == [] then 0 else (if calls[0].FinishCall? then 1 else 0) + FinishCount(calls[1..])
  }

  /** One fire decrements the captured counter by one; at or below zero it stops the timer, then
      calls `onFinish`, then `onTick` with the new value, both seeing the timer stopped; above
      zero only `onTick` is called, with the timer still running. The session is untouched. */
  lemma FireSteps(s: TimerState)
    requires s.timer.Some?
    ensures var t, f := s.timer.value, Fire(s);
      && SameSession(f.state, s)
      && (t.timeLeft - 1 <= 0 ==>
            f.state.timer.None? && f.calls == FinishCalls(t.onFinish, false) + TickCalls(t.onTick, t.timeLeft - 1, false))
      && (t.timeLeft - 1 > 0 ==>
            f.state.timer == Some(t.(timeLeft := t.timeLeft - 1)) && f.calls == TickCalls(t.onTick, t.timeLeft - 1, true))
  {
  }

  lemma {:induction false} RunKeepsSession(s: TimerState, n: nat)
    ensures SameSession(Run(s, n).state, s)
    decreases n
  {
    if n > 0 && s.timer.Some? {
      RunKeepsSession(Fire(s).state, n - 1);
    }
  }

  /** A timer counting down from `k >= 1` with both closures: the first `k - 1` fires report
      `k - 1` down to 1 while running; fire number `k` stops it and calls `onFinish` once, then
      `onTick(0)`; after that nothing fires. */
  lemma {:induction false} Countdown(s: TimerState, n: nat)
    requires s.timer.Some? && s.timer.value.timeLeft >= 1
    requires s.timer.value.onTick.Some? && s.timer.value.onFinish.Some?
    ensures var t := s.timer.value; var k := t.timeLeft; var tk, fn := t.onTick.value, t.onFinish.value;
      && (n < k ==>
            Run(s, n).state == s.(timer := Some(t.(timeLeft := k - n))) && Run(s, n).calls == Ticks(tk, k - 1, n))
      && (n >= k ==>
            Run(s, n).state == Stopped(s)
            && Run(s, n).calls == Ticks(tk, k - 1, k - 1) + [FinishCall(fn, false), TickCall(tk, 0, false)])
    decreases n
  {
    var t := s.timer.value;
    var k := t.timeLeft;
    if n > 0 {
      var first := Fire(s);
      if k > 1 {
        Countdown(first.state, n - 1);
      } else {
        assert Run(first.state, n - 1) == Fired(Stopped(s), []);
      }
    }
  }

  lemma {:induction false} FinishCountAppend(a: seq<TimerCall>, b: seq<TimerCall>)
    ensures FinishCount(a + b) == FinishCount(a) + FinishCount(b)
  {
    if a == [] {
      assert a + b == b;
    } else {
      assert (a + b)[1..] == a[1..] + b;
      FinishCountAppend(a[1..], b);
    }
  }

  lemma {:induction false} TicksHaveNoFinish(tk: CallbackRef, from: int, n: nat)
    ensures FinishCount(Ticks(tk, from, n)) == 0
    decreases n
  {
    if n > 0 {
      TicksHaveNoFinish(tk, from - 1, n - 1);
    }
  }

  /** For a period `p >= 1`, `onFinish` fires exactly once, on fire number `p`, and never before. */
  lemma FinishOnceAfterPeriod(s: TimerState, p: int, interval: real, tk: CallbackRef, fn: CallbackRef, n: nat)
    requires p >= 1
    ensures var f := Run(Dispatched(s, p, interval, Some(tk), Some(fn)), n);
      && FinishCount(f.calls) == (if n >= p then 1 else 0)
      && (f.state.timer.None? <==> n >= p)
      && (n >= p ==> f.calls[|f.calls| - 1] == TickCall(tk, 0, false))
  {
    var d := Dispatched(s, p, interval, Some(tk), Some(fn));
    Countdown(d, n);
    TicksHaveNoFinish(tk, p - 1, if n < p then n else p - 1);
    if n >= p {
      FinishCountAppend(Ticks(tk, p - 1, p - 1), [FinishCall(fn, false), TickCall(tk, 0, false)]);
    }
  }

  /** `n + 1` fires are `n` fires followed by one more, as long as the timer still runs. */
  lemma {:induction false} RunThenFire(s: TimerState, n: nat)
    requires Run(s, n).state.timer.Some?
    ensures var before := Run(s, n); var last := Fire(before.state);
      Run(s, n + 1) == Fired(last.state, before.calls + last.calls)
    decreases n
  {
    if n == 0 {
      assert Fire(s).calls + [] == Fire(s).calls;
    } else {
      assert s.timer.Some?;
      var first := Fire(s);
      RunThenFire(first.state, n - 1);
      var before := Run(first.state, n - 1);
      var last := Fire(before.state);
      assert first.calls + (before.calls + last.calls) == (first.calls + before.calls) + last.calls;
    }
  }

  /** Once the timer has stopped, further fires change nothing. */
  lemma {:induction false} RunAfterStop(s: TimerState, i: nat, n: nat)
    requires i <= n && Run(s, i).state.timer.None?
    ensures Run(s, n) == Run(s, i)
    decreases i
  {
    if i > 0 && s.timer.Some? {
      RunAfterStop(Fire(s).state, i - 1, n - 1);
    }
  }

  /** `stop` is idempotent and leaves the recorded session alone. */
  lemma StopIsIdempotent(s: TimerState)
    ensures Stopped(Stopped(s)) == Stopped(s)
    ensures SameSession(Stopped(s), s) && Stopped(s).timer.None?
  {
  }

  /** `restart` after any number of fires starts the same session over from its full period. */
  lemma RestartRepeatsSession(s: TimerState, p: int, interval: real,
                              onTick: Option<CallbackRef>, onFinish: Option<CallbackRef>, n: nat)
    ensures var d := Dispatched(s, p, interval, onTick, onFinish);
      Restarted(Run(d, n).state) == d
  {
    var d := Dispatched(s, p, interval, onTick, onFinish);
    RunKeepsSession(d, n);
  }

  /** `restart` on a timer never dispatched runs the defaults: period 0, interval 1.0, no
      closures; its first fire (counter -1) stops it and calls nothing. */
  lemma RestartWithDefaults()
    ensures Restarted(Initial) == Dispatched(Initial, 0, 1.0, None, None)
    ensures Restarted(Initial).timer.Some?
    ensures Fire(Restarted(Initial)) == Fired(Stopped(Restarted(Initial)), [])
  {
  }

  class CountDownTimer {
    var timer: Option<ScheduledTimer>
    var lastTimerPeriod: int
    var lastTimeInterval: real
    var lastOnTickClosure: Option<CallbackRef>
    var lastOnFinishClosure: Option<CallbackRef>
    /** Set by `dispatch`, never read: the block counts down its own captured copy. */
    var timeLeft: int

    function State(): (s: TimerState)
      reads this
    {
      TimerState(timer, lastTimerPeriod, lastTimeInterval, lastOnTickClosure, lastOnFinishClosure, timeLeft)
    }

    constructor ()
      ensures State() == Initial
    {
      timer := None;
      lastTimerPeriod := 0;
      lastTimeInterval := 1.0;
      lastOnTickClosure := None;
      lastOnFinishClosure := None;
      timeLeft := 0;
    }

    /** `isRunning`: a timer is scheduled. */
    function IsRunning(): (running: bool)
      reads this
      ensures running <==> State().timer.Some?
    {
      timer != None
    }

    method Dispatch(period: int, timeInterval: real, onTick: Option<CallbackRef>, onFinish: Option<CallbackRef>)
      modifies this
      ensures State() == Dispatched(old(State()), period, timeInterval, onTick, onFinish)
      ensures IsRunning()
    {
      lastTimerPeriod := period;
      lastTimeInterval := timeInterval;
      lastOnTickClosure := onTick;
      lastOnFinishClosure := onFinish;
      timeLeft := period;
      timer := Some(ScheduledTimer(period, timeInterval, onTick, onFinish));
    }

    method Restart()
      modifies this
      ensures State() == Restarted(old(State()))
      ensures IsRunning()
    {
      timer := None;
      Dispatch(lastTimerPeriod, lastTimeInterval, lastOnTickClosure, lastOnFinishClosure);
    }

    method Stop()
      modifies this
      ensures State() == Stopped(old(State()))
      ensures !IsRunning()
    {
      timer := None;
    }

    /** One fire of the scheduled timer's block, returning the closure invocations in order. */
    method Tick() returns (calls: seq<TimerCall>)
      requires IsRunning()
      modifies this
      ensures State() == Fire(old(State())).state
      ensures calls == Fire(old(State())).calls
    {
      var scheduled := timer.value;
      var left := scheduled.timeLeft - 1;
      timer := Some(scheduled.(timeLeft := left));
      calls := [];
      if left <= 0 {
        Stop();
        if scheduled.onFinish.Some? {
          calls := calls + [FinishCall(scheduled.onFinish.value, IsRunning())];
        }
      }
      if scheduled.onTick.Some? {
        calls := calls + [TickCall(scheduled.onTick.value, left, IsRunning())];
      }
    }
  }
}
