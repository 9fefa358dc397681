/**
 * The working-session screen: the countdown text, which buttons show for a
 * timer state, the exit decision, marking the task completed, and the
 * routing of notification actions pressed while the app is in front.
 *
 * Navigation is reported as a boolean `navigateBack`; the answer the user
 * gives to a confirmation alert is an argument.
 */
module WorkingSession {
  import opened Data
  import opened Numbers
  import opened UseTimer
  import opened MainSlice

  /** `timerDurationSeconds`: the configured minutes as seconds. */
  function TimerDurationSeconds(timeDuration: int): int {
    timeDuration * 60
  }

  /** `timeToShow`: minutes padded to two digits, a colon, seconds padded to two digits. */
  function TimeToShow(seconds: int): string {
    PadStart(NumberToString(seconds / 60), 2, '0') + ":" + PadStart(NumberToString(JsRem(seconds, 60)), 2, '0')
  }

  /** Index of the first ':' in `text`, or -1. */
  function ColonIndex(text: string): (r: int)
    ensures -1 <= r < |text|
    ensures r == -1 <==> ':' !in text
    ensures 0 <= r ==> text[r] == ':' && ':' !in text[..r]
  {
    if |text| == 0 then -1
    else if text[0] == ':' then 0
    else
      var k := ColonIndex(text[1..]);
      assert text == [text[0]] + text[1..];
      if k == -1 then -1
      else
        assert text[..k + 1] == [text[0]] + text[1..][..k];
        k + 1
  }

  /**
   * Reads a countdown text back: digits for the minutes, a colon, exactly
   * two digits for the seconds (below 60).
   */
  function ReadClock(text: string): Option<int> {
    var k := ColonIndex(text);
    if k < 1 then None
    else
      var minutes := text[..k];
      var secs := text[k + 1..];
      if AllDigits(minutes) && |secs| == 2 && AllDigits(secs) && DigitsValue(secs) < 60
      then Some(DigitsValue(minutes) * 60 + DigitsValue(secs))
      else None
  }

  /** Zero-padding a digit string keeps its value. */
  lemma PaddedValue(digits: string, width: nat)
    requires AllDigits(digits)
    ensures AllDigits(PadStart(digits, width, '0'))
    ensures DigitsValue(PadStart(digits, width, '0')) == DigitsValue(digits)
  {
    var r := PadStart(digits, width, '0');
    var z := r[..|r| - |digits|];
    assert r == z + digits;
    LeadingZeros(z, digits);
  }

  /**
   * The countdown text round-trips: for any count that is not negative,
   * reading the text back gives the count.
   */
  lemma ClockRoundTrip(seconds: int)
    requires seconds >= 0
    ensures ReadClock(TimeToShow(seconds)) == Some(seconds)
  {
    MinutesAndSeconds(seconds);
    var m: nat := seconds / 60;
    var s: nat := seconds % 60;
    var text := TimeToShow(seconds);
    TimeToShowParts(seconds);
    assert text == PaddedNat(m) + ":" + PaddedNat(s);
    ReadClockParts(PaddedNat(m), PaddedNat(s), m, s);
    assert m * 60 + s == seconds;
  }

  /** Below 100 minutes (6000 seconds) the text is exactly "MM:SS", five characters. */
  lemma ClockWidth(seconds: int)
    requires 0 <= seconds < 6000
    ensures |TimeToShow(seconds)| == 5 && TimeToShow(seconds)[2] == ':'
  {
    MinutesAndSeconds(seconds);
    var mm := PaddedNat(seconds / 60);
    var ss := PaddedNat(seconds % 60);
    assert |mm| == 2 && |ss| == 2;
    TimeToShowParts(seconds);
    assert TimeToShow(seconds) == mm + ":" + ss;
  }

  /** The countdown text of a count that is not negative, as its two padded parts. */
  lemma TimeToShowParts(seconds: int)
    requires seconds >= 0
    ensures TimeToShow(seconds) == PaddedNat(seconds / 60) + ":" + PaddedNat(seconds % 60)
  {
    assert JsRem(seconds, 60) == seconds % 60;
  }

  /** Splitting a count into minutes and seconds. */
  lemma MinutesAndSeconds(seconds: int)
    requires seconds >= 0
    ensures seconds / 60 >= 0 && 0 <= seconds % 60 < 60
    ensures (seconds / 60) * 60 + seconds % 60 == seconds
    ensures seconds < 6000 ==> seconds / 60 < 100
  {
  }

  /** Two-digit padding of `n`: digits, at least two of them, worth `n`. */
  function PaddedNat(n: nat): (r: string)
    ensures |r| >= 2 && AllDigits(r) && DigitsValue(r) == n
    ensures n < 100 ==> |r| == 2
  {
    DigitsOfNatToString(n);
    PaddedValue(NatToString(n), 2);
    PadStart(NatToString(n), 2, '0')
  }

  /** Reading "mm:ss" for digit strings `mm` and two-digit `ss` below 60. */
  lemma ReadClockParts(mm: string, ss: string, minutes: nat, secs: nat)
    requires |mm| >= 1 && AllDigits(mm) && DigitsValue(mm) == minutes
    requires |ss| == 2 && AllDigits(ss) && DigitsValue(ss) == secs && secs < 60
    ensures ReadClock(mm + ":" + ss) == Some(minutes * 60 + secs)
  {
    var text := mm + ":" + ss;
    assert ':' !in mm by {
      assert forall i :: 0 <= i < |mm| ==> IsDigit(mm[i]);
    }
    assert text[..|mm|] == mm && text[|mm|] == ':';
    assert ColonIndex(text) == |mm|;
    assert text[|mm| + 1..] == ss;
  }

  /** A fresh countdown of `d` minutes shows `d` (padded) and ":00". */
  lemma FreshCountdownText(d: int)
    requires d >= 0
    ensures TimeToShow(TimerDurationSeconds(d)) == PadStart(NumberToString(d), 2, '0') + ":00"
  {
    assert TimerDurationSeconds(d) / 60 == d;
    assert JsRem(TimerDurationSeconds(d), 60) == 0;
  }

  // ---------------------------------------------------------------------
  // What the screen shows

  datatype Label = PauseLabel | ResumeLabel | StartLabel

  /** The primary button, if shown, with its label. */
  function PrimaryButton(isRunning: bool, hasStarted: bool, hasCompleted: bool): Option<Label> {
    if hasCompleted then None
    else if isRunning then Some(PauseLabel)
    else if hasStarted && !hasCompleted then Some(ResumeLabel)
    else Some(StartLabel)
  }

  predicate ShowsResetButton(hasStarted: bool, hasCompleted: bool) { hasStarted && !hasCompleted }

  predicate ShowsCompletionPrompt(hasCompleted: bool) { hasCompleted }

  /** The start message or the completed message is shown. */
  predicate ShowsMessage(hasStarted: bool, hasCompleted: bool) { !hasStarted || hasCompleted }

  datatype ExitDecision = LeaveNow | AskToConfirm

  /** `onExit`: leave at once unless a session is under way. */
  function OnExitDecision(hasStarted: bool, hasCompleted: bool): ExitDecision {
    if !hasStarted || hasCompleted then LeaveNow else AskToConfirm
  }

  /**
   * For every state the timer can reach: either the primary button or the
   * completion prompt shows, never both; "Pause" shows exactly while
   * running, "Resume" exactly while paused part-way, "Start" exactly before
   * the first start; the Reset button shows exactly when leaving asks for
   * confirmation.
   */
  lemma ScreenForTimerState(c: Config, s: TimerState)
    requires Inv(c, s)
    ensures var done := IsCompleted(s);
      var button := PrimaryButton(s.isRunning, s.hasBeenStarted, done);
      && (button.Some? <==> !ShowsCompletionPrompt(done))
      && (button == Some(PauseLabel) <==> s.isRunning)
      && (button == Some(ResumeLabel) <==> s.hasBeenStarted && !s.isRunning && s.seconds != 0)
      && (button == Some(StartLabel) <==> !s.hasBeenStarted)
      && (ShowsResetButton(s.hasBeenStarted, done) <==> OnExitDecision(s.hasBeenStarted, done) == AskToConfirm)
      && (ShowsResetButton(s.hasBeenStarted, done) <==> button == Some(PauseLabel) || button == Some(ResumeLabel))
      && (ShowsMessage(s.hasBeenStarted, done) <==> !ShowsResetButton(s.hasBeenStarted, done))
  {
  }

  /** The payload `handleCompleted` dispatches: status Completed for this id. */
  function CompletionPatch(id: Id): TaskPatch {
    TaskPatch(Some(id), None, None, Some(COMPLETED), None, KeepDue)
  }

  /**
   * Marking a task completed sets the status of the first task with that id
   * to Completed and changes nothing else; an unknown or empty id changes
   * nothing.
   */
  lemma CompletionMarksTask(tasks: seq<Task>, id: Id)
    ensures id == "" || id !in Keys(tasks, TaskKey) ==> EditFirst(tasks, CompletionPatch(id)) == tasks
    ensures id != "" && id in Keys(tasks, TaskKey) ==>
      exists k :: 0 <= k < |tasks| && tasks[k].id == id
        && (forall i :: 0 <= i < k ==> tasks[i].id != id)
        && EditFirst(tasks, CompletionPatch(id)) == tasks[k := tasks[k].(status := COMPLETED)]
  {
    EditFirstSpec(tasks, CompletionPatch(id));
  }

  /** How a notification action pressed in the foreground is handled. */
  datatype Routing = RouteComplete | RouteRestart | Ignore

  /**
   * Only a press on an action with a non-empty id is routed: "complete"
   * and "restart" each to their handler, any other id is ignored.
   */
  function RouteAction(isActionPress: bool, actionId: Option<string>): (r: Routing)
    ensures r == RouteComplete <==> isActionPress && actionId == Some("complete")
    ensures r == RouteRestart <==> isActionPress && actionId == Some("restart")
  {
    if isActionPress && actionId.Some? && actionId.value != "" then
      if actionId.value == "complete" then RouteComplete
      else if actionId.value == "restart" then RouteRestart
      else Ignore
    else Ignore
  }

  // ---------------------------------------------------------------------
  // The screen's handlers

  class Screen {
    const store: MainStore
    const timer: Timer
    /** The task the session is for, if one was passed. */
    const task: Option<Task>
    /** The configured session length, in minutes, read on mount. */
    const timeDuration: int

    ghost predicate Valid()
      reads this, timer
    {
      timer.Valid() && timer.initialSeconds == TimerDurationSeconds(timeDuration)
    }

    /** Mounting the screen: the hook gets the configured length and auto-start flag. */
    constructor (store: MainStore, task: Option<Task>)
      ensures this.store == store && this.task == task && this.timeDuration == store.timeDuration
      ensures fresh(timer) && timer.State() == Initial(Config(TimerDurationSeconds(store.timeDuration), store.autoStartTimer))
      ensures timer.autoStart == store.autoStartTimer
      ensures Valid()
    {
      this.store := store;
      this.task := task;
      this.timeDuration := store.timeDuration;
      this.timer := new Timer(TimerDurationSeconds(store.timeDuration), store.autoStartTimer);
    }

    /**
     * The primary button: pause while running, start otherwise. The first
     * start records a session for the task, if there is one.
     */
    method PressPrimary(freshId: Id, now: int)
      requires Valid()
      modifies timer, store`sessions
      ensures Valid()
      ensures old(timer.isRunning) ==> timer.State() == PauseStep(old(timer.State())) && store.sessions == old(store.sessions)
      ensures !old(timer.isRunning) ==> timer.State() == StartStep(old(timer.State())).state
      ensures !old(timer.isRunning) ==>
                store.sessions == old(store.sessions) +
                  (if StartStep(old(timer.State())).called && task.Some?
                   then [Session(freshId, task.value.id, now, timeDuration, None)] else [])
    {
      if timer.isRunning {
        timer.Pause();
      } else {
        var first := timer.Start();
        if first && task.Some? {
          store.StartSession(task.value.id, Some(timeDuration), freshId, now);
        }
      }
    }

    /** `onExit`: whether the screen is left, given the user's answer if asked. */
    method OnExit(userConfirms: bool) returns (navigateBack: bool)
      ensures navigateBack <==> !timer.hasBeenStarted || timer.HasCompleted() || userConfirms
    {
      var decision := OnExitDecision(timer.hasBeenStarted, timer.HasCompleted());
      navigateBack := decision == LeaveNow || userConfirms;
    }

    /** `handleReset`: resets the timer when the user confirms. */
    method HandleReset(userConfirms: bool)
      requires Valid()
      modifies timer
      ensures Valid()
      ensures timer.State() == if userConfirms then Initial(timer.Cfg()) else old(timer.State())
    {
      if userConfirms {
        timer.Reset();
      }
    }

    /** "No, Reset The Timer" on the completion prompt: resets without asking. */
    method DeclineCompletion()
      requires Valid()
      modifies timer
      ensures Valid()
      ensures timer.State() == Initial(timer.Cfg())
    {
      timer.Reset();
    }

    /** `handleCompleted`: marks the task completed, if there is one, and leaves. */
    method HandleCompleted() returns (navigateBack: bool)
      modifies store`tasks
      ensures navigateBack
      ensures store.tasks == if task.Some? then EditFirst(old(store.tasks), CompletionPatch(task.value.id))
                             else old(store.tasks)
      ensures old(store.Valid()) ==> store.Valid()
    {
      if task.Some? {
        store.EditTask(CompletionPatch(task.value.id));
      }
      navigateBack := true;
    }

    /**
     * The foreground notification handler. "restart" is routed to the
     * `restart` the screen takes from the hook, which the hook does not
     * provide; the model reports the routing and leaves the timer alone.
     */
    method HandleForegroundEvent(isActionPress: bool, actionId: Option<string>)
      returns (routing: Routing, navigateBack: bool)
      modifies store`tasks
      ensures routing == RouteAction(isActionPress, actionId)
      ensures navigateBack <==> routing == RouteComplete
      ensures store.tasks == if routing == RouteComplete && task.Some?
                             then EditFirst(old(store.tasks), CompletionPatch(task.value.id))
                             else old(store.tasks)
      ensures old(store.Valid()) ==> store.Valid()
    {
      routing := RouteAction(isActionPress, actionId);
      navigateBack := false;
      if routing == RouteComplete {
        navigateBack := HandleCompleted();
      }
    }
  }
}
