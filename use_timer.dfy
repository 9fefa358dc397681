/**
 * The countdown hook of a working session: a counter of seconds, a running
 * flag and a sticky "has been started" flag.
 *
 * Each operation of the hook is a transition function on `TimerState`; the
 * class `Timer` holds the three fields and updates them in place, each
 * method bound to its transition. The interval callback is `Tick` (it only
 * exists while the timer runs); the effect that watches the counter is
 * `Monitor`. The callbacks `onFirstStart` and `onFinish` are reported as
 * booleans saying whether the transition called them.
 */
module UseTimer {

  datatype TimerState = TimerState(seconds: int, isRunning: bool, hasBeenStarted: bool)

  /** The arguments of the hook: the starting count and the auto-start option. */
  datatype Config = Config(initialSeconds: int, autoStart: bool)

  /** A new state together with "the callback was called". */
  datatype Fired = Fired(state: TimerState, called: bool)

  /** The state on mount, and again after `reset`. */
  function Initial(c: Config): TimerState {
    TimerState(c.initialSeconds, c.autoStart, c.autoStart)
  }

  /** `start`: `onFirstStart` is called only when the timer had never been started. */
  function StartStep(s: TimerState): (r: Fired)
    ensures r.called <==> !s.hasBeenStarted
    ensures r.state == TimerState(s.seconds, true, true)
  {
    if !s.hasBeenStarted then Fired(s.(isRunning := true, hasBeenStarted := true), true)
    else Fired(s.(isRunning := true), false)
  }

  /** `pause`: stops the timer and touches nothing else. */
  function PauseStep(s: TimerState): TimerState {
    s.(isRunning := false)
  }

  /** One interval callback: counts down by one and stops at zero. */
  function TickStep(s: TimerState): TimerState {
    if !s.isRunning then s
    else s.(seconds := if s.seconds > 0 then s.seconds - 1 else 0)
  }

  /** The effect watching the counter: at zero while running, stop and call `onFinish`. */
  function MonitorStep(s: TimerState): (r: Fired)
    ensures r.called <==> s.seconds == 0 && s.isRunning
    ensures !r.called ==> r.state == s
    ensures r.called ==>
              !r.state.isRunning && r.state.seconds == s.seconds && r.state.hasBeenStarted == s.hasBeenStarted
  {
    if s.seconds == 0 && s.isRunning then Fired(s.(isRunning := false), true)
    else Fired(s, false)
  }

  /** Finished: at zero, stopped, and started at some point. */
  predicate IsCompleted(s: TimerState) {
    s.seconds == 0 && !s.isRunning && s.hasBeenStarted
  }

  // ---------------------------------------------------------------------
  // Runs of the hook

  /** What can happen to the hook, one at a time. */
  datatype Event = StartEvent | PauseEvent | ResetEvent | TickEvent

  /** The counts of `onFirstStart` and `onFinish` calls over a run. */
  datatype Outcome = Outcome(state: TimerState, firstStarts: nat, finishes: nat)

  /**
   * An event followed by the monitor effect, which runs after every change.
   * Only a start of a never-started timer calls `onFirstStart`; `onFinish`
   * is called when the event leaves a running timer at zero: a start at
   * zero, a tick from 1 or 0 while running, or a reset that auto-starts
   * from zero. A pause calls nothing.
   */
  function Step(c: Config, s: TimerState, e: Event): (r: Outcome)
    ensures r.firstStarts <= 1 && r.finishes <= 1
    ensures r.firstStarts == 1 <==> e == StartEvent && !s.hasBeenStarted
    ensures r.finishes == 1 <==>
      || (e == StartEvent && s.seconds == 0)
      || (e == TickEvent && s.isRunning && s.seconds <= 1)
      || (e == ResetEvent && c.autoStart && c.initialSeconds == 0)
  {
    var (next, first) := match e
      case StartEvent => (StartStep(s).state, StartStep(s).called)
      case PauseEvent => (PauseStep(s), false)
      case ResetEvent => (Initial(c), false)
      case TickEvent => (TickStep(s), false);
    var m := MonitorStep(next);
    Outcome(m.state, if first then 1 else 0, if m.called then 1 else 0)
  }

  /** The events in order, with the callbacks counted. */
  function Run(c: Config, s: TimerState, events: seq<Event>): Outcome
    decreases |events|
  {
    if |events| == 0 then Outcome(s, 0, 0)
    else
      var first := Step(c, s, events[0]);
      var rest := Run(c, first.state, events[1..]);
      Outcome(rest.state, first.firstStarts + rest.firstStarts, first.finishes + rest.finishes)
  }

  /** A state the hook can be in under `c`. */
  ghost predicate Inv(c: Config, s: TimerState) {
    && (s.isRunning ==> s.hasBeenStarted)
    && (c.autoStart ==> s.hasBeenStarted)
    && (c.initialSeconds >= 0 ==> 0 <= s.seconds <= c.initialSeconds)
  }

  /** The state on mount, after the monitor's first run. */
  function Mount(c: Config): Fired {
    MonitorStep(Initial(c))
  }

  // ---------------------------------------------------------------------
  // Properties

  /** On mount: the full count, running and started exactly when auto-starting. */
  lemma InitialState(c: Config)
    ensures Initial(c).seconds == c.initialSeconds
    ensures Initial(c).isRunning == c.autoStart && Initial(c).hasBeenStarted == c.autoStart
    ensures Inv(c, Mount(c).state)
  {
  }

  /** Starting twice calls `onFirstStart` at most once, and never the second time. */
  lemma SecondStartFiresNothing(s: TimerState)
    ensures !StartStep(StartStep(s).state).called
    ensures StartStep(StartStep(s).state).state == StartStep(s).state
  {
  }

  /** Pause keeps the count and the started flag. */
  lemma PauseKeeps(s: TimerState)
    ensures !PauseStep(s).isRunning
    ensures PauseStep(s).seconds == s.seconds && PauseStep(s).hasBeenStarted == s.hasBeenStarted
  {
  }

  /** A tick changes the count only while running, to max(seconds - 1, 0). */
  lemma TickCounts(s: TimerState)
    ensures !s.isRunning ==> TickStep(s) == s
    ensures s.isRunning ==> TickStep(s).seconds == (if s.seconds - 1 > 0 then s.seconds - 1 else 0)
    ensures TickStep(s).isRunning == s.isRunning && TickStep(s).hasBeenStarted == s.hasBeenStarted
  {
  }

  /** Every step keeps the invariant, whatever the event. */
  lemma StepKeepsInv(c: Config, s: TimerState, e: Event)
    requires Inv(c, s)
    ensures Inv(c, Step(c, s, e).state)
  {
  }

  /** Along any run the invariant holds; in particular the count stays in [0, initialSeconds]. */
  lemma {:induction false} RunKeepsInv(c: Config, s: TimerState, events: seq<Event>)
    requires Inv(c, s)
    ensures Inv(c, Run(c, s, events).state)
    decreases |events|
  {
    if |events| > 0 {
      StepKeepsInv(c, s, events[0]);
      RunKeepsInv(c, Step(c, s, events[0]).state, events[1..]);
    }
  }

  /** When the monitor calls `onFinish`, the timer has completed and is stopped. */
  lemma FinishCompletes(c: Config, s: TimerState)
    requires Inv(c, s)
    requires MonitorStep(s).called
    ensures IsCompleted(MonitorStep(s).state)
    ensures !MonitorStep(MonitorStep(s).state).called
  {
  }

  /** An event other than start or reset. */
  predicate Passive(e: Event) { e == PauseEvent || e == TickEvent }

  /** Without a start or a reset, a stopped timer stays stopped and calls nothing. */
  lemma {:induction false} StoppedStaysStopped(c: Config, s: TimerState, events: seq<Event>)
    requires !s.isRunning
    requires forall i :: 0 <= i < |events| ==> Passive(events[i])
    ensures var r := Run(c, s, events); !r.state.isRunning && r.finishes == 0 && r.firstStarts == 0
    decreases |events|
  {
    if |events| > 0 {
      StoppedStaysStopped(c, Step(c, s, events[0]).state, events[1..]);
    }
  }

  /**
   * `onFinish` is called at most once per run of the timer: between two
   * starts or resets, however many ticks and pauses there are.
   */
  lemma {:induction false} FinishAtMostOnce(c: Config, s: TimerState, events: seq<Event>)
    requires forall i :: 0 <= i < |events| ==> Passive(events[i])
    ensures Run(c, s, events).finishes <= 1
    ensures Run(c, s, events).firstStarts == 0
    decreases |events|
  {
    if |events| > 0 {
      var first := Step(c, s, events[0]);
      if first.finishes == 1 {
        StoppedStaysStopped(c, first.state, events[1..]);
      } else {
        FinishAtMostOnce(c, first.state, events[1..]);
      }
    }
  }

  /** With auto-start on, `onFirstStart` is never called, in any run. */
  lemma {:induction false} AutoStartNeverFiresFirstStart(c: Config, s: TimerState, events: seq<Event>)
    requires c.autoStart && Inv(c, s)
    ensures Run(c, s, events).firstStarts == 0
    decreases |events|
  {
    if |events| > 0 {
      StepKeepsInv(c, s, events[0]);
      AutoStartNeverFiresFirstStart(c, Step(c, s, events[0]).state, events[1..]);
    }
  }

  /** Between two resets, `onFirstStart` is called at most once. */
  lemma {:induction false} FirstStartAtMostOnce(c: Config, s: TimerState, events: seq<Event>)
    requires forall i :: 0 <= i < |events| ==> events[i] != ResetEvent
    ensures Run(c, s, events).firstStarts <= 1
    ensures s.hasBeenStarted ==> Run(c, s, events).firstStarts == 0
    decreases |events|
  {
    if |events| > 0 {
      var first := Step(c, s, events[0]);
      assert first.firstStarts == 1 ==> first.state.hasBeenStarted;
      assert s.hasBeenStarted ==> first.state.hasBeenStarted && first.firstStarts == 0;
      FirstStartAtMostOnce(c, first.state, events[1..]);
    }
  }

  /** `n` interval callbacks in a row. */
  function Ticks(n: nat): (r: seq<Event>)
    ensures |r| == n && forall i :: 0 <= i < n ==> r[i] == TickEvent
  {
    seq(n, _ => TickEvent)
  }

  /** While running, `n` ticks short of zero take exactly `n` seconds off. */
  lemma {:induction false} TicksCountDown(c: Config, s: TimerState, n: nat)
    requires s.isRunning && n < s.seconds
    ensures Run(c, s, Ticks(n)) == Outcome(s.(seconds := s.seconds - n), 0, 0)
    decreases n
  {
    if n > 0 {
      var next := s.(seconds := s.seconds - 1);
      assert Step(c, s, TickEvent) == Outcome(next, 0, 0);
      assert Ticks(n)[1..] == Ticks(n - 1);
      TicksCountDown(c, next, n - 1);
    }
  }

  /**
   * A running timer with `n` seconds left completes after exactly `n` ticks,
   * calling `onFinish` once.
   */
  lemma CountdownCompletes(c: Config, s: TimerState)
    requires Inv(c, s) && s.isRunning && s.seconds > 0
    ensures var r := Run(c, s, Ticks(s.seconds));
      IsCompleted(r.state) && r.finishes == 1 && r.firstStarts == 0
  {
    var n := s.seconds;
    var last := s.(seconds := 1);
    TicksCountDown(c, s, n - 1);
    assert Ticks(n) == Ticks(n - 1) + [TickEvent];
    RunAppend(c, s, Ticks(n - 1), [TickEvent]);
    assert Run(c, last, [TickEvent]).state == TimerState(0, false, true);
  }

  /** A run of `a + b` is the run of `a` followed by the run of `b`. */
  lemma {:induction false} RunAppend(c: Config, s: TimerState, a: seq<Event>, b: seq<Event>)
    ensures var ra := Run(c, s, a); var rb := Run(c, ra.state, b);
      Run(c, s, a + b) == Outcome(rb.state, ra.firstStarts + rb.firstStarts, ra.finishes + rb.finishes)
    decreases |a|
  {
    if |a| > 0 {
      assert (a + b)[0] == a[0] && (a + b)[1..] == a[1..] + b;
      RunAppend(c, Step(c, s, a[0]).state, a[1..], b);
    } else {
      assert a + b == b;
    }
  }

  /**
   * Starting a fresh timer without auto-start, ticking `n` times short of
   * zero and pausing leaves `n` seconds off, started and paused, with one
   * `onFirstStart` call and no `onFinish`.
   */
  lemma StartTicksPause(c: Config, n: nat)
    requires !c.autoStart && n < c.initialSeconds
    ensures Run(c, Initial(c), [StartEvent] + Ticks(n) + [PauseEvent])
      == Outcome(TimerState(c.initialSeconds - n, false, true), 1, 0)
  {
    var started := TimerState(c.initialSeconds, true, true);
    var ticked := TimerState(c.initialSeconds - n, true, true);
    var paused := TimerState(c.initialSeconds - n, false, true);
    assert Run(c, Initial(c), [StartEvent]) == Outcome(started, 1, 0) by {
      assert Step(c, Initial(c), StartEvent) == Outcome(started, 1, 0);
      assert [StartEvent][1..] == [];
    }
    TicksCountDown(c, started, n);
    RunAppend(c, Initial(c), [StartEvent], Ticks(n));
    assert Run(c, ticked, [PauseEvent]) == Outcome(paused, 0, 0) by {
      assert Step(c, ticked, PauseEvent) == Outcome(paused, 0, 0);
      assert [PauseEvent][1..] == [];
    }
    RunAppend(c, Initial(c), [StartEvent] + Ticks(n), [PauseEvent]);
  }

  /**
   * Starting a fresh timer of 1500 seconds and pausing after ten ticks
   * leaves 1490 seconds, started and paused, with one `onFirstStart` call.
   */
  lemma PauseAfterTenSeconds()
    ensures var c := Config(1500, false);
      Run(c, Initial(c), [StartEvent] + Ticks(10) + [PauseEvent])
        == Outcome(TimerState(1490, false, true), 1, 0)
  {
    StartTicksPause(Config(1500, false), 10);
  }

  // ---------------------------------------------------------------------
  // The hook as an object

  class Timer {
    const initialSeconds: int
    const autoStart: bool
    var seconds: int
    var isRunning: bool
    var hasBeenStarted: bool

    function Cfg(): Config { Config(initialSeconds, autoStart) }

    function State(): TimerState
      reads this
    {
      TimerState(seconds, isRunning, hasBeenStarted)
    }

    ghost predicate Valid()
      reads this
    {
      Inv(Cfg(), State())
    }

    /** Mounting the hook (the monitor's first run is `Monitor`). */
    constructor (initialSeconds: int, autoStart: bool)
      ensures this.initialSeconds == initialSeconds && this.autoStart == autoStart
      ensures State() == Initial(Cfg())
      ensures Valid()
    {
      this.initialSeconds := initialSeconds;
      this.autoStart := autoStart;
      seconds := initialSeconds;
      isRunning := autoStart;
      hasBeenStarted := autoStart;
    }

    method Start() returns (firstStart: bool)
      requires Valid()
      modifies this
      ensures Fired(State(), firstStart) == StartStep(old(State()))
      ensures Valid()
    {
      firstStart := false;
      if !hasBeenStarted {
        hasBeenStarted := true;
        firstStart := true;
      }
      isRunning := true;
    }

    method Pause()
      requires Valid()
      modifies this
      ensures State() == PauseStep(old(State()))
      ensures Valid()
    {
      isRunning := false;
    }

    method Reset()
      requires Valid()
      modifies this
      ensures State() == Initial(Cfg())
      ensures Valid()
    {
      isRunning := autoStart;
      hasBeenStarted := autoStart;
      seconds := initialSeconds;
    }

    /** The interval callback; it is only scheduled while running. */
    method Tick()
      requires Valid()
      modifies this
      ensures State() == TickStep(old(State()))
      ensures Valid()
    {
      if !isRunning {
        return;
      }
      seconds := if seconds > 0 then seconds - 1 else 0;
    }

    method Monitor() returns (finished: bool)
      requires Valid()
      modifies this
      ensures Fired(State(), finished) == MonitorStep(old(State()))
      ensures Valid()
    {
      finished := false;
      if seconds == 0 && isRunning {
        isRunning := false;
        finished := true;
      }
    }

    predicate HasCompleted()
      reads this
      ensures HasCompleted() == IsCompleted(State())
    {
      seconds == 0 && !isRunning && hasBeenStarted
    }
  }
}
