/**
 * The study timer: one countdown session bound to at most one study item, driven by a repeating
 * one-second interval. `TimerState` is the value of the five module-level timer variables plus the
 * number of intervals the browser keeps firing; the `*Step` functions give the effect of each
 * operation on it, and the class `StudyTimer` performs them on fields, step by step.
 */
module Timer {
  import opened Options
  import opened Catalog
  import opened TimerDisplay

  /** Length of a study session in seconds: 30 minutes. */
  const TIMER_DURATION: int := 30 * 60

  datatype TimerState = TimerState(
    currentTimer: int,                    // seconds left in the session
    timerInterval: bool,                  // an interval handle is held
    isTimerRunning: bool,
    isPaused: bool,
    currentStudyItem: Option<StudyItem>,  // the item being studied, if any
    activeIntervals: int)                 // intervals the browser still fires every second

  /** The consistency every reachable state keeps. */
  predicate WellFormed(s: TimerState) {
    0 <= s.currentTimer <= TIMER_DURATION &&
    (s.timerInterval <==> s.isTimerRunning) &&
    s.activeIntervals == (if s.timerInterval then 1 else 0) &&
    (s.isPaused ==> s.isTimerRunning) &&
    (s.currentStudyItem.None? ==> !s.isTimerRunning) &&
    (s.isTimerRunning ==> s.currentTimer > 0)
  }

  /** The state `resetTimer` leaves behind: no item, full time, nothing scheduled. */
  const Idle := TimerState(TIMER_DURATION, false, false, false, None, 0)

  /** `stopTimer`: clear the held interval, if any; nothing else changes. */
  function StopStep(s: TimerState): TimerState {
    if s.timerInterval then s.(timerInterval := false, activeIntervals := s.activeIntervals - 1) else s
  }

  /** `startTimer(item)`: stop the old interval, then begin a full session on `item` with a new one. */
  function StartStep(s: TimerState, item: StudyItem): TimerState {
    var t := StopStep(s);
    t.(currentStudyItem := Some(item), currentTimer := TIMER_DURATION, isTimerRunning := true,
       isPaused := false, timerInterval := true, activeIntervals := t.activeIntervals + 1)
  }

  /** `onTimerComplete`: stop the interval and end the session (the item stays selected). */
  function CompleteStep(s: TimerState): TimerState {
    StopStep(s).(isTimerRunning := false)
  }

  /** The interval callback; the flag says whether it raised the completion notice. */
  function CallbackStep(s: TimerState): (TimerState, bool) {
    if !s.isPaused && s.currentTimer > 0 then
      var t := s.(currentTimer := s.currentTimer - 1);
      if t.currentTimer <= 0 then (CompleteStep(t), true) else (t, false)
    else (s, false)
  }

  /** `pauseTimer`: flip the paused flag of a running session; otherwise do nothing. */
  function PauseStep(s: TimerState): TimerState {
    if !s.isTimerRunning then s else s.(isPaused := !s.isPaused)
  }

  /** `resetTimer`: stop the interval and return to no session with the full duration. */
  function ResetStep(s: TimerState): TimerState {
    StopStep(s).(currentTimer := TIMER_DURATION, currentStudyItem := None,
                 isTimerRunning := false, isPaused := false)
  }

  /** `k` invocations of the callback in a row, and how many completion notices they raised. */
  function FireCallbacks(s: TimerState, k: nat): (TimerState, nat)
    decreases k
  {
    if k == 0 then (s, 0)
    else
      var (t, c) := CallbackStep(s);
      var (u, n) := FireCallbacks(t, k - 1);
      (u, n + (if c then 1 else 0))
  }

  /** One second of wall-clock time: every live interval runs the callback once. */
  function Second(s: TimerState): (TimerState, nat) {
    FireCallbacks(s, if s.activeIntervals > 0 then s.activeIntervals else 0)
  }

  /** `n` seconds of wall-clock time, and the completion notices raised meanwhile. */
  function RunSeconds(s: TimerState, n: nat): (TimerState, nat)
    decreases n
  {
    if n == 0 then (s, 0)
    else
      var (t, c) := Second(s);
      var (u, k) := RunSeconds(t, n - 1);
      (u, c + k)
  }

  // ----- single operations -----

  /** Starting replaces whatever session there was by a fresh one, with exactly one interval live. */
  lemma StartGivesFreshSession(s: TimerState, item: StudyItem)
    requires WellFormed(s)
    ensures var r := StartStep(s, item);
      r.currentTimer == TIMER_DURATION && r.isTimerRunning && !r.isPaused &&
      r.currentStudyItem == Some(item) && r.timerInterval && r.activeIntervals == 1 && WellFormed(r)
  {
  }

  /** Stopping clears the handle and is idempotent. */
  lemma StopIdempotent(s: TimerState)
    ensures !StopStep(s).timerInterval
    ensures StopStep(StopStep(s)) == StopStep(s)
  {
  }

  /** A second of a running, unpaused session takes exactly one second off; reaching zero completes it. */
  lemma SecondWhileCounting(s: TimerState)
    requires WellFormed(s) && s.isTimerRunning && !s.isPaused
    ensures var (t, c) := Second(s);
      WellFormed(t) && t.currentTimer == s.currentTimer - 1 &&
      t.currentStudyItem == s.currentStudyItem && !t.isPaused &&
      c == (if s.currentTimer == 1 then 1 else 0) &&
      (t.isTimerRunning <==> s.currentTimer > 1)
  {
    assert Second(s) == FireCallbacks(s, 1);
  }

  /** While paused, the callback still runs but changes nothing and never completes. */
  lemma {:induction false} PausedCallbacksChangeNothing(s: TimerState, k: nat)
    requires s.isPaused
    ensures FireCallbacks(s, k) == (s, 0)
  {
    if k > 0 {
      PausedCallbacksChangeNothing(s, k - 1);
    }
  }

  /** Once a session is over (completed or reset), no interval is live, so time passes without effect. */
  lemma SecondWhileStopped(s: TimerState)
    requires WellFormed(s) && !s.isTimerRunning
    ensures Second(s) == (s, 0)
  {
  }

  /** Pausing does nothing when no session runs, and otherwise flips only the paused flag. */
  lemma PauseFlipsOnlyPaused(s: TimerState)
    ensures PauseStep(s).isPaused != s.isPaused <==> s.isTimerRunning
    ensures PauseStep(s).(isPaused := s.isPaused) == s
    ensures WellFormed(s) ==> WellFormed(PauseStep(s))
  {
  }

  /** Pausing twice restores the original state. */
  lemma PauseTwiceRestores(s: TimerState)
    ensures PauseStep(PauseStep(s)) == s
  {
  }

  /** Reset reaches the same idle state from every consistent state, and resetting again changes nothing. */
  lemma ResetReachesIdle(s: TimerState)
    requires WellFormed(s)
    ensures ResetStep(s) == Idle && WellFormed(Idle)
    ensures ResetStep(ResetStep(s)) == ResetStep(s)
  {
  }

  /** Every step keeps a consistent state consistent. */
  lemma StepsPreserveWellFormed(s: TimerState, item: StudyItem)
    requires WellFormed(s)
    ensures WellFormed(StartStep(s, item)) && WellFormed(PauseStep(s)) && WellFormed(ResetStep(s))
    ensures WellFormed(CallbackStep(s).0) && WellFormed(Second(s).0)
  {
    if s.activeIntervals > 0 {
      assert Second(s) == FireCallbacks(s, 1);
    }
  }

  // ----- runs of several seconds -----

  /** Running `m + n` seconds is running `m` seconds and then `n` more. */
  lemma {:induction false} RunSecondsSplit(s: TimerState, m: nat, n: nat)
    ensures var (t, c) := RunSeconds(s, m);
      var (u, k) := RunSeconds(t, n);
      RunSeconds(s, m + n) == (u, c + k)
    decreases m
  {
    if m > 0 {
      var (t1, c1) := Second(s);
      RunSecondsSplit(t1, m - 1, n);
      assert m + n - 1 == (m - 1) + n;
    }
  }

  /** A paused session stays exactly as it is however long the pause lasts. */
  lemma {:induction false} RunWhilePaused(s: TimerState, n: nat)
    requires s.isPaused
    ensures RunSeconds(s, n) == (s, 0)
  {
    if n > 0 {
      PausedCallbacksChangeNothing(s, if s.activeIntervals > 0 then s.activeIntervals else 0);
      RunWhilePaused(s, n - 1);
    }
  }

  /** A session that is not running stays exactly as it is: completion cannot fire again. */
  lemma {:induction false} RunWhileStopped(s: TimerState, n: nat)
    requires WellFormed(s) && !s.isTimerRunning
    ensures RunSeconds(s, n) == (s, 0)
  {
    if n > 0 {
      SecondWhileStopped(s);
      RunWhileStopped(s, n - 1);
    }
  }

  /**
   * An unpaused running session loses exactly one second per second; it is still running until the
   * count reaches zero, and at that moment it stops and completion fires exactly once.
   */
  lemma {:induction false} RunCountsDown(s: TimerState, n: nat)
    requires WellFormed(s) && s.isTimerRunning && !s.isPaused && n <= s.currentTimer
    ensures var (u, c) := RunSeconds(s, n);
      WellFormed(u) && u.currentTimer == s.currentTimer - n && !u.isPaused &&
      u.currentStudyItem == s.currentStudyItem &&
      (u.isTimerRunning <==> n < s.currentTimer) &&
      c == (if n == s.currentTimer then 1 else 0)
    decreases n
  {
    if n > 0 {
      SecondWhileCounting(s);
      var (t, c) := Second(s);
      if t.isTimerRunning {
        RunCountsDown(t, n - 1);
      } else {
        assert n == 1;
      }
    }
  }

  /**
   * An unpaused running session left alone for at least its remaining time ends stopped at zero,
   * with no interval live and exactly one completion notice.
   */
  lemma RunPastZero(s: TimerState, n: nat)
    requires WellFormed(s) && s.isTimerRunning && !s.isPaused && n >= s.currentTimer
    ensures var (u, c) := RunSeconds(s, n);
      !u.isTimerRunning && u.currentTimer == 0 && u.activeIntervals == 0 && c == 1
  {
    var d := s.currentTimer;
    RunCountsDown(s, d);
    var (t, c) := RunSeconds(s, d);
    RunWhileStopped(t, n - d);
    RunSecondsSplit(s, d, n - d);
  }

  /**
   * Starting a session and letting at least `TIMER_DURATION` seconds pass ends with the session
   * stopped at 00:00, no interval live, and exactly one completion notice.
   */
  lemma SessionCompletesOnce(s: TimerState, item: StudyItem, n: nat)
    requires WellFormed(s) && n >= TIMER_DURATION
    ensures var (u, c) := RunSeconds(StartStep(s, item), n);
      !u.isTimerRunning && u.currentTimer == 0 && u.activeIntervals == 0 && c == 1
  {
    StartGivesFreshSession(s, item);
    RunPastZero(StartStep(s, item), n);
  }

  /**
   * Start, pause, let `m` seconds pass: nothing moves. Resume and let `n` seconds pass (fewer than
   * a session): exactly `n` seconds are gone and the session still runs.
   */
  lemma PauseHoldsThenResumes(s: TimerState, item: StudyItem, m: nat, n: nat)
    requires WellFormed(s) && n < TIMER_DURATION
    ensures var p := PauseStep(StartStep(s, item));
      RunSeconds(p, m) == (p, 0) &&
      var (u, c) := RunSeconds(PauseStep(p), n);
      u.currentTimer == TIMER_DURATION - n && u.isTimerRunning && c == 0
  {
    var s0 := StartStep(s, item);
    StartGivesFreshSession(s, item);
    var p := PauseStep(s0);
    RunWhilePaused(p, m);
    assert PauseStep(p) == s0;
    RunCountsDown(s0, n);
  }

  /** Every consistent state shows as `MM:SS` denoting its remaining time. */
  lemma DisplayOfConsistentState(s: TimerState)
    requires WellFormed(s)
    ensures var d := Display(s.currentTimer);
      |d| == 5 && d[2] == ':' && ValueOf(d[..2]) * 60 + ValueOf(d[3..]) == s.currentTimer
  {
    DisplayReadsBack(s.currentTimer);
  }

  /** The timer variables of the page, updated in place by the page's handlers. */
  class StudyTimer {
    var currentTimer: int
    var timerInterval: bool
    var isTimerRunning: bool
    var isPaused: bool
    var currentStudyItem: Option<StudyItem>
    var activeIntervals: int

    function State(): TimerState
      reads this
    {
      TimerState(currentTimer, timerInterval, isTimerRunning, isPaused, currentStudyItem, activeIntervals)
    }

    predicate Valid()
      reads this
    {
      WellFormed(State())
    }

    /** The variables as declared, then the `resetTimer` call that ends page initialisation. */
    constructor ()
      ensures State() == Idle && Valid()
    {
      currentTimer := 0;
      timerInterval := false;
      isTimerRunning := false;
      isPaused := false;
      currentStudyItem := None;
      activeIntervals := 0;
      new;
      ResetTimer();
    }

    method StopTimer()
      modifies this
      ensures State() == StopStep(old(State()))
    {
      if timerInterval {
        activeIntervals := activeIntervals - 1;
        timerInterval := false;
      }
    }

    /** Begin a session on `item`; the returned URL is the one opened in a new tab. */
    method StartTimer(item: StudyItem) returns (openedUrl: string)
      modifies this
      ensures State() == StartStep(old(State()), item)
      ensures old(Valid()) ==> Valid()
      ensures openedUrl == item.url
    {
      StopTimer();
      currentStudyItem := Some(item);
      currentTimer := TIMER_DURATION;
      isTimerRunning := true;
      isPaused := false;
      openedUrl := item.url;
      activeIntervals := activeIntervals + 1;
      timerInterval := true;
    }

    /**
     * The interval callback, which the browser runs only while an interval is live; `completed` is
     * whether it showed the completion notice.
     */
    method Tick() returns (completed: bool)
      requires activeIntervals > 0
      modifies this
      ensures (State(), completed) == CallbackStep(old(State()))
      ensures old(Valid()) ==> Valid()
    {
      completed := false;
      if !isPaused && currentTimer > 0 {
        currentTimer := currentTimer - 1;
        if currentTimer <= 0 {
          OnTimerComplete();
          completed := true;
        }
      }
    }

    method OnTimerComplete()
      modifies this
      ensures State() == CompleteStep(old(State()))
    {
      StopTimer();
      isTimerRunning := false;
    }

    method PauseTimer()
      modifies this
      ensures State() == PauseStep(old(State()))
      ensures old(Valid()) ==> Valid()
    {
      if !isTimerRunning {
        return;
      }
      isPaused := !isPaused;
    }

    method ResetTimer()
      modifies this
      ensures State() == ResetStep(old(State()))
      ensures old(Valid()) ==> State() == Idle
    {
      StopTimer();
      currentTimer := TIMER_DURATION;
      currentStudyItem := None;
      isTimerRunning := false;
      isPaused := false;
    }

    /** The text `updateTimerDisplay` writes: `MM:SS` denoting the seconds left. */
    method UpdateTimerDisplay() returns (text: string)
      requires 0 <= currentTimer < 6000
      ensures |text| == 5 && text[2] == ':' && AllDigits(text[..2]) && AllDigits(text[3..])
      ensures ValueOf(text[3..]) < 60 && ValueOf(text[..2]) * 60 + ValueOf(text[3..]) == currentTimer
    {
      DisplayReadsBack(currentTimer);
      var minutes := currentTimer / 60;
      var seconds := currentTimer % 60;
      text := PadStart2(Decimal(minutes)) + ":" + PadStart2(Decimal(seconds));
    }
  }
}
