/** The typing indicator debounce of `OnTextChanged` and the typing timer,
    as a state machine over time; each step says which typing value, if
    any, the page writes to the database. */
module Typing {
  import opened Wrappers
  import opened ChatMessages

  /** The quiet time after the last text change before typing is cleared. */
  const QuietWindow: int := 2 * TicksPerSecond

  /** `_lastTypingTime`, and whether a `_typingTimer` is running. */
  datatype Debounce = Debounce(lastTypingTime: Instant, timerRunning: bool)

  /** A new page: `default(DateTime)` and no timer. */
  const Initial: Debounce := Debounce(0, false)

  /** `OnTextChanged`: every change records its time; new non-empty text
      writes typing = true and restarts the timer; empty text writes typing =
      false and leaves the timer alone; unchanged text writes nothing. */
  function TextChanged(d: Debounce, oldText: NullableString, newText: NullableString, now: Instant)
    : (r: (Debounce, Option<bool>))
    ensures r.0.lastTypingTime == now
    ensures r.1 == Some(true) <==> !IsNullOrEmpty(newText) && newText != oldText
    ensures r.1 == Some(false) <==> IsNullOrEmpty(newText)
    ensures r.0.timerRunning <==> r.1 == Some(true) || d.timerRunning
  {
    if !IsNullOrEmpty(newText) && newText != oldText then (Debounce(now, true), Some(true))
    else if IsNullOrEmpty(newText) then (Debounce(now, d.timerRunning), Some(false))
    else (Debounce(now, d.timerRunning), None)
  }

  /** The timer's `Elapsed` handler: once two seconds have passed since the
      last change it writes typing = false and stops; before that it does
      nothing and the timer keeps running. A stopped timer does not fire. */
  function TimerElapsed(d: Debounce, now: Instant): (r: (Debounce, Option<bool>))
    ensures r.1.Some? <==> d.timerRunning && now - d.lastTypingTime >= QuietWindow
    ensures r.1.Some? ==> r.1.value == false
    ensures r.0.lastTypingTime == d.lastTypingTime
    ensures r.0.timerRunning <==> d.timerRunning && r.1.None?
  {
    if d.timerRunning && now - d.lastTypingTime >= QuietWindow then (d.(timerRunning := false), Some(false))
    else (d, None)
  }

  datatype Event =
    | TextChange(oldText: NullableString, newText: NullableString, at: Instant)
    | TimerTick(at: Instant)

  function Step(d: Debounce, e: Event): (Debounce, Option<bool>)
  {
    match e
    case TextChange(oldText, newText, at) => TextChanged(d, oldText, newText, at)
    case TimerTick(at) => TimerElapsed(d, at)
  }

  function Written(out: Option<bool>): seq<bool>
  {
    if out.Some? then [out.value] else []
  }

  /** The final state and the typing values written, in order, when the
      events happen one after the other. */
  function Run(d: Debounce, events: seq<Event>): (Debounce, seq<bool>)
    decreases |events|
  {
    if events == [] then (d, [])
    else
      var step := Step(d, events[0]);
      var rest := Run(step.0, events[1..]);
      (rest.0, Written(step.1) + rest.1)
  }

  /** The timer firing at each of the instants `ts`. */
  function Ticks(ts: seq<Instant>): (r: seq<Event>)
    ensures |r| == |ts|
    ensures forall i :: 0 <= i < |ts| ==> r[i] == TimerTick(ts[i])
  {
    if ts == [] then [] else [TimerTick(ts[0])] + Ticks(ts[1..])
  }

  lemma {:induction false} RunAppend(d: Debounce, a: seq<Event>, b: seq<Event>)
    ensures Run(d, a + b).0 == Run(Run(d, a).0, b).0
    ensures Run(d, a + b).1 == Run(d, a).1 + Run(Run(d, a).0, b).1
    decreases |a|
  {
    if a == [] {
      assert a + b == b;
    } else {
      assert (a + b)[0] == a[0];
      assert (a + b)[1..] == a[1..] + b;
      var step := Step(d, a[0]);
      RunAppend(step.0, a[1..], b);
      assert Run(d, a + b).1 == Written(step.1) + Run(step.0, a[1..] + b).1;
      assert Run(d, a).1 == Written(step.1) + Run(step.0, a[1..]).1;
    }
  }

  /** While less than two seconds have passed since the last change, the
      timer can fire any number of times without writing anything. */
  lemma {:induction false} TicksInsideWindowAreSilent(t: Instant, ts: seq<Instant>)
    requires forall i :: 0 <= i < |ts| ==> ts[i] - t < QuietWindow
    ensures Run(Debounce(t, true), Ticks(ts)).0 == Debounce(t, true)
    ensures Run(Debounce(t, true), Ticks(ts)).1 == []
    decreases |ts|
  {
    if ts != [] {
      assert Ticks(ts)[0] == TimerTick(ts[0]) && Ticks(ts)[1..] == Ticks(ts[1..]);
      TicksInsideWindowAreSilent(t, ts[1..]);
    }
  }

  /** Once the timer has stopped, firing writes nothing. */
  lemma {:induction false} StoppedTimerIsSilent(d: Debounce, ts: seq<Instant>)
    requires !d.timerRunning
    ensures Run(d, Ticks(ts)).0 == d && Run(d, Ticks(ts)).1 == []
    decreases |ts|
  {
    if ts != [] {
      assert Ticks(ts)[0] == TimerTick(ts[0]) && Ticks(ts)[1..] == Ticks(ts[1..]);
      StoppedTimerIsSilent(d, ts[1..]);
    }
  }

  /** From any state, a change to new non-empty text writes typing = true;
      the timer then stays silent while it fires inside the two-second
      window, and the first firing after it writes typing = false and stops
      the timer. */
  lemma {:induction false} QuietWindowClearsTyping(d: Debounce, oldText: NullableString, newText: NullableString,
                                                   t: Instant, ts: seq<Instant>, tEnd: Instant)
    requires !IsNullOrEmpty(newText) && newText != oldText
    requires forall i :: 0 <= i < |ts| ==> ts[i] - t < QuietWindow
    requires tEnd - t >= QuietWindow
    ensures var run := Run(d, [TextChange(oldText, newText, t)] + Ticks(ts) + [TimerTick(tEnd)]);
            run.0 == Debounce(t, false) && run.1 == [true, false]
  {
    var key := [TextChange(oldText, newText, t)];
    assert Run(d, key).0 == Debounce(t, true) && Run(d, key).1 == [true] by {
      assert key[1..] == [];
      assert Step(d, key[0]) == (Debounce(t, true), Some(true));
      assert Written(Some(true)) == [true];
    }
    TicksInsideWindowAreSilent(t, ts);
    RunAppend(d, key, Ticks(ts));
    var fire := [TimerTick(tEnd)];
    assert Run(Debounce(t, true), fire).0 == Debounce(t, false) && Run(Debounce(t, true), fire).1 == [false] by {
      assert fire[1..] == [];
      assert Step(Debounce(t, true), fire[0]) == (Debounce(t, false), Some(false));
      assert Written(Some(false)) == [false];
    }
    RunAppend(d, key + Ticks(ts), fire);
  }
}
