/** The kitchen timer of the timer dialog: configured minutes and seconds, a
    remaining total in seconds, and an active flag. The one-second interval
    and the effect that watches the state become two discrete steps: `Tick`
    (the interval firing) and `React` (the effect reacting to a state in
    which an active timer has reached zero). The alarm, a toast plus an
    audio cue, is reported as a flag. */
module KitchenTimer {

  const MaxMinutes: nat := 999
  const MaxSeconds: nat := 59
  const MaxTotal: nat := MaxMinutes * 60 + MaxSeconds

  /** The ranges the number inputs allow. */
  type Minutes = m: nat | m <= MaxMinutes
  type Seconds = s: nat | s <= MaxSeconds

  datatype TimerState = TimerState(minutes: Minutes, seconds: Seconds, total: nat, active: bool)

  /** The duration the inputs currently describe. */
  function Configured(s: TimerState): (n: nat)
    ensures n <= MaxTotal
    ensures n / 60 == s.minutes && n % 60 == s.seconds
  {
    s.minutes * 60 + s.seconds
  }

  /** The interval is armed exactly when the timer runs with time left. */
  predicate TickArmed(s: TimerState) {
    s.active && s.total > 0
  }

  /** A state the expiry effect has nothing left to do with. */
  predicate Settled(s: TimerState) {
    s.active ==> s.total > 0
  }

  /** The total never exceeds the largest duration the inputs can describe. */
  predicate InRange(s: TimerState) {
    s.total <= MaxTotal
  }

  function Initial(): (s: TimerState)
    ensures s.minutes == 10 && s.seconds == 0 && !s.active
    ensures s.total == Configured(s) == 600
    ensures Settled(s) && InRange(s)
  {
    TimerState(10, 0, 10 * 60 + 0, false)
  }

  /** One firing of the interval. */
  function Tick(s: TimerState): (r: TimerState)
    ensures TickArmed(s) ==> r.total + 1 == s.total
    ensures !TickArmed(s) ==> r == s
    ensures r.minutes == s.minutes && r.seconds == s.seconds && r.active == s.active
  {
    if TickArmed(s) then s.(total := s.total - 1) else s
  }

  /** The outcome of a step: the new state and whether the alarm sounded. */
  datatype Reaction = Reaction(state: TimerState, alarm: bool)

  /** The effect's expiry branch: an active timer at zero is switched off
      and sounds the alarm; in every other state the effect changes
      nothing. */
  function React(s: TimerState): (r: Reaction)
    ensures r.alarm <==> s.active && s.total == 0
    ensures r.alarm ==> r.state == s.(active := false)
    ensures !r.alarm ==> r.state == s
    ensures Settled(r.state)
  {
    if s.active && s.total == 0 then Reaction(s.(active := false), true) else Reaction(s, false)
  }

  /** The Start button. A run that has reached zero is reloaded from the
      inputs; any other total, including one left by a pause, is kept. */
  function Start(s: TimerState): (r: TimerState)
    ensures r.active
    ensures r.minutes == s.minutes && r.seconds == s.seconds
    ensures s.total == 0 ==> r.total == Configured(s)
    ensures s.total > 0 ==> r.total == s.total
  {
    var newTotal := s.minutes * 60 + s.seconds;
    var total := if newTotal > 0 && s.total == 0 then newTotal else s.total;
    s.(total := total, active := true)
  }

  /** The Pause button, and also what closing the dialog does. */
  function Pause(s: TimerState): (r: TimerState)
    ensures !r.active
    ensures r.total == s.total
    ensures r.minutes == s.minutes && r.seconds == s.seconds
  {
    s.(active := false)
  }

  function Reset(s: TimerState): (r: TimerState)
    ensures !r.active
    ensures r.total == Configured(s)
    ensures r.minutes == s.minutes && r.seconds == s.seconds
  {
    s.(active := false, total := s.minutes * 60 + s.seconds)
  }

  /** Editing an input; the inputs are disabled while the timer runs. */
  function SetMinutes(s: TimerState, m: Minutes): (r: TimerState)
    requires !s.active
    ensures r.minutes == m && r.seconds == s.seconds
    ensures r.total == s.total && r.active == s.active
  {
    s.(minutes := m)
  }

  function SetSeconds(s: TimerState, sec: Seconds): (r: TimerState)
    requires !s.active
    ensures r.seconds == sec && r.minutes == s.minutes
    ensures r.total == s.total && r.active == s.active
  {
    s.(seconds := sec)
  }

  /** The primary button reads Start while the timer is inactive and Pause
      while it runs. */
  datatype Event =
    | Elapse
    | PressStartPause
    | PressReset
    | CloseDialog
    | EditMinutes(m: Minutes)
    | EditSeconds(sec: Seconds)

  /** The state change an event makes before the effect runs. A disabled
      input ignores edits and a cleared interval never fires. */
  function Apply(s: TimerState, e: Event): (r: TimerState)
    ensures e.Elapse? ==> r == Tick(s)
    ensures e.PressStartPause? ==> r == if s.active then Pause(s) else Start(s)
    ensures e.PressReset? ==> r == Reset(s)
    ensures e.CloseDialog? ==> r == Pause(s)
    ensures (e.EditMinutes? || e.EditSeconds?) ==> r.total == s.total && r.active == s.active
    ensures (e.EditMinutes? || e.EditSeconds?) && s.active ==> r == s
    ensures e.EditMinutes? && !s.active ==> r == SetMinutes(s, e.m)
    ensures e.EditSeconds? && !s.active ==> r == SetSeconds(s, e.sec)
  {
    match e
    case Elapse => Tick(s)
    case PressStartPause => if s.active then Pause(s) else Start(s)
    case PressReset => Reset(s)
    case CloseDialog => Pause(s)
    case EditMinutes(m) => if s.active then s else SetMinutes(s, m)
    case EditSeconds(sec) => if s.active then s else SetSeconds(s, sec)
  }

  /** An event followed by the effect's reaction to the state it leaves. */
  function Step(s: TimerState, e: Event): (r: Reaction)
    ensures Settled(r.state)
    ensures InRange(s) ==> InRange(r.state)
    ensures r.alarm ==> !r.state.active && r.state.total == 0
    ensures r.alarm ==> s.active || e.PressStartPause?
  {
    React(Apply(s, e))
  }

  /** The state after a sequence of events, and how many alarms sounded. */
  datatype Run = Run(state: TimerState, alarms: nat)

  function RunEvents(s: TimerState, es: seq<Event>): (r: Run)
    ensures r.alarms <= |es|
    ensures InRange(s) ==> InRange(r.state)
    ensures Settled(s) ==> Settled(r.state)
    decreases |es|
  {
    if |es| == 0 then Run(s, 0)
    else
      var first := Step(s, es[0]);
      var rest := RunEvents(first.state, es[1..]);
      Run(rest.state, rest.alarms + if first.alarm then 1 else 0)
  }

  function Repeat(e: Event, n: nat): (es: seq<Event>)
    ensures |es| == n
    ensures forall i :: 0 <= i < n ==> es[i] == e
  {
    seq(n, _ => e)
  }

  lemma RunAppend(s: TimerState, a: seq<Event>, b: seq<Event>)
    ensures RunEvents(s, a + b).state == RunEvents(RunEvents(s, a).state, b).state
    ensures RunEvents(s, a + b).alarms == RunEvents(s, a).alarms + RunEvents(RunEvents(s, a).state, b).alarms
    decreases |a|
  {
    if |a| == 0 {
      assert a + b == b;
    } else {
      assert (a + b)[0] == a[0];
      assert (a + b)[1..] == a[1..] + b;
      var first := Step(s, a[0]);
      RunAppend(first.state, a[1..], b);
    }
  }

  /** While the timer runs with `n` seconds left, `n` ticks bring it to
      zero, switch it off and sound the alarm exactly once. */
  lemma {:induction false} CountdownExpiresOnce(s: TimerState, n: nat)
    requires s.active && s.total == n && n > 0
    ensures RunEvents(s, Repeat(Elapse, n)) == Run(s.(total := 0, active := false), 1)
    decreases n
  {
    var es := Repeat(Elapse, n);
    var next := Step(s, Elapse);
    assert es[1..] == Repeat(Elapse, n - 1);
    if n == 1 {
      assert next == Reaction(s.(total := 0, active := false), true);
    } else {
      assert next == Reaction(s.(total := n - 1), false);
      CountdownExpiresOnce(s.(total := n - 1), n - 1);
    }
  }

  /** Once the timer is off, no event sequence without a press of the
      Start button switches it on again or sounds the alarm. */
  lemma {:induction false} NoAlarmWithoutStart(s: TimerState, es: seq<Event>)
    requires !s.active
    requires forall i :: 0 <= i < |es| ==> es[i] != PressStartPause
    ensures RunEvents(s, es).alarms == 0
    ensures !RunEvents(s, es).state.active
    decreases |es|
  {
    if |es| > 0 {
      var next := Step(s, es[0]);
      assert !next.alarm && !next.state.active;
      NoAlarmWithoutStart(next.state, es[1..]);
    }
  }

  /** Starting with nothing configured and nothing left does not refuse to
      start: the timer becomes active at zero and the effect expires it at
      once, with an alarm. */
  lemma StartAtZeroExpiresImmediately(s: TimerState)
    requires s.minutes == 0 && s.seconds == 0 && s.total == 0 && !s.active
    ensures Apply(s, PressStartPause).active
    ensures Step(s, PressStartPause) == Reaction(s, true)
  {
  }

  /** Pause and then Start resume exactly where the run stopped, whatever
      the inputs now say. */
  lemma PauseThenStartResumes(s: TimerState, edits: seq<Event>)
    requires s.active && s.total > 0
    requires forall i :: 0 <= i < |edits| ==> edits[i].EditMinutes? || edits[i].EditSeconds?
    ensures RunEvents(s, [PressStartPause] + edits + [PressStartPause]).state.total == s.total
    ensures RunEvents(s, [PressStartPause] + edits + [PressStartPause]).state.active
    ensures RunEvents(s, [PressStartPause] + edits + [PressStartPause]).alarms == 0
  {
    var paused := Step(s, PressStartPause).state;
    assert paused == s.(active := false);
    EditsKeepTotal(paused, edits);
    RunAppend(s, [PressStartPause], edits);
    RunAppend(s, [PressStartPause] + edits, [PressStartPause]);
  }

  /** Edits change only the inputs: the remaining total and the active flag
      stay as they are, and no alarm sounds. */
  lemma {:induction false} EditsKeepTotal(s: TimerState, edits: seq<Event>)
    requires Settled(s)
    requires forall i :: 0 <= i < |edits| ==> edits[i].EditMinutes? || edits[i].EditSeconds?
    ensures RunEvents(s, edits).state.total == s.total
    ensures RunEvents(s, edits).state.active == s.active
    ensures RunEvents(s, edits).alarms == 0
    decreases |edits|
  {
    if |edits| > 0 {
      var next := Step(s, edits[0]);
      assert next.state.total == s.total && next.state.active == s.active && !next.alarm;
      EditsKeepTotal(next.state, edits[1..]);
    }
  }

  /** Reset from any state yields an inactive timer holding the configured
      duration; the effect then has nothing to do. */
  lemma ResetLoadsConfiguration(s: TimerState)
    ensures Step(s, PressReset) == Reaction(Reset(s), false)
    ensures Step(s, PressReset).state.total == Configured(s)
    ensures !Step(s, PressReset).state.active
  {
  }

  /** Editing while paused does not pull the remaining total down to the
      new configuration: the remaining time may exceed the configured
      duration. */
  lemma RemainingMayExceedConfigured()
    ensures RunEvents(Initial(), [EditMinutes(0)]).state.total == 600
    ensures Configured(RunEvents(Initial(), [EditMinutes(0)]).state) == 0
  {
    assert [EditMinutes(0)][1..] == [];
  }

  /** From the initial state: set 0 minutes and 5 seconds, Reset, Start,
      five ticks. The run expires with one alarm and 0 seconds remain. */
  lemma FiveSecondScenario()
    ensures var es := [EditMinutes(0), EditSeconds(5), PressReset, PressStartPause] + Repeat(Elapse, 5);
      RunEvents(Initial(), es) == Run(TimerState(0, 5, 0, false), 1)
  {
    var setup := [EditMinutes(0), EditSeconds(5), PressReset, PressStartPause];
    var running := TimerState(0, 5, 5, true);
    FiveSecondSetup();
    CountdownExpiresOnce(running, 5);
    RunAppend(Initial(), setup, Repeat(Elapse, 5));
  }

  /** The same edits without Reset leave the old total in place: Start
      resumes the 600 seconds rather than loading 5. */
  lemma EditWithoutResetKeepsOldTotal()
    ensures RunEvents(Initial(), [EditMinutes(0), EditSeconds(5), PressStartPause]).state
            == TimerState(0, 5, 600, true)
  {
    var es := [EditMinutes(0), EditSeconds(5), PressStartPause];
    assert es[1..][1..][1..] == [];
    assert RunEvents(TimerState(0, 5, 600, false), es[1..][1..]).state == TimerState(0, 5, 600, true);
    assert RunEvents(TimerState(0, 0, 600, false), es[1..]).state == TimerState(0, 5, 600, true);
  }

  /** Set 1 minute 30 seconds, Reset, Start, ten ticks, Pause: 80 seconds
      remain. */
  lemma PausedScenario()
    ensures var es := [EditMinutes(1), EditSeconds(30), PressReset, PressStartPause] + Repeat(Elapse, 10) + [PressStartPause];
      RunEvents(Initial(), es) == Run(TimerState(1, 30, 80, false), 0)
  {
    var setup := [EditMinutes(1), EditSeconds(30), PressReset, PressStartPause];
    var ticks := Repeat(Elapse, 10);
    TenSecondsOfNinety();
    RunSingle(TimerState(1, 30, 80, true), PressStartPause);
    RunAppend(Initial(), setup + ticks, [PressStartPause]);
  }

  /** A single event is one step. */
  lemma RunSingle(s: TimerState, e: Event)
    ensures RunEvents(s, [e]) == Run(Step(s, e).state, if Step(s, e).alarm then 1 else 0)
  {
    assert [e][1..] == [];
  }

  /** Fewer ticks than the remaining total keep the timer running. */
  lemma {:induction false} TicksWhileRunning(s: TimerState, k: nat)
    requires s.active && s.total > k
    ensures RunEvents(s, Repeat(Elapse, k)) == Run(s.(total := s.total - k), 0)
    decreases k
  {
    if k > 0 {
      assert Repeat(Elapse, k)[1..] == Repeat(Elapse, k - 1);
      TicksWhileRunning(s.(total := s.total - 1), k - 1);
    }
  }

  /** Setting 0:05, Reset and Start leaves a countdown of five seconds. */
  lemma FiveSecondSetup()
    ensures RunEvents(Initial(), [EditMinutes(0), EditSeconds(5), PressReset, PressStartPause])
            == Run(TimerState(0, 5, 5, true), 0)
  {
  }

  /** Ten ticks into the ninety-second countdown, 80 seconds remain. */
  lemma TenSecondsOfNinety()
    ensures RunEvents(Initial(), [EditMinutes(1), EditSeconds(30), PressReset, PressStartPause] + Repeat(Elapse, 10))
            == Run(TimerState(1, 30, 80, true), 0)
  {
    var setup := [EditMinutes(1), EditSeconds(30), PressReset, PressStartPause];
    NinetySecondSetup();
    TicksWhileRunning(TimerState(1, 30, 90, true), 10);
    RunAppend(Initial(), setup, Repeat(Elapse, 10));
  }

  /** Setting 1:30, Reset and Start leaves a countdown of ninety seconds. */
  lemma NinetySecondSetup()
    ensures RunEvents(Initial(), [EditMinutes(1), EditSeconds(30), PressReset, PressStartPause])
            == Run(TimerState(1, 30, 90, true), 0)
  {
  }
}
