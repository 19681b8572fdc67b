/**
 * The Pomodoro timer (TimerViewModel.swift).  The phase machine is given
 * first as functions on a `TimerState` value, then as the class the view
 * holds, whose methods change its fields exactly as those functions say.
 * The once-a-second `Timer`, the run loop and the alert sound are outside
 * the model: `start` only sets `isRunning`.
 */
module Timer {
  import opened Text
  import opened SwiftInt

  datatype Phase = Focus | ShortBreak | LongBreak

  /** The user's durations, in minutes, and how many focus sessions earn a long break. */
  datatype Settings = Settings(focusMinutes: int, shortBreakMinutes: int, longBreakMinutes: int, longBreakInterval: int)

  const DefaultSettings: Settings := Settings(25, 5, 15, 4)

  datatype TimerState = TimerState(phase: Phase, isRunning: bool, secondsRemaining: int, completedFocusCount: int)

  /** `totalSecondsForPhase`, and the time `resetTimer(for:)` restores. */
  function TotalSeconds(s: Settings, p: Phase): (r: int)
    ensures r % 60 == 0
    ensures r / 60 == match p
      case Focus => s.focusMinutes
      case ShortBreak => s.shortBreakMinutes
      case LongBreak => s.longBreakMinutes
  {
    match p
    case Focus => s.focusMinutes * 60
    case ShortBreak => s.shortBreakMinutes * 60
    case LongBreak => s.longBreakMinutes * 60
  }

  function Max(a: int, b: int): int
  {
    if a < b then b else a
  }

  /** The break that follows a focus session when `count` sessions are done. */
  function BreakAfter(s: Settings, count: int): (r: Phase)
    ensures r != Focus
    ensures count >= 0 ==> (r == LongBreak <==> count % Max(1, s.longBreakInterval) == 0)
  {
    if SwiftRemainder(count, Max(1, s.longBreakInterval)) == 0 then LongBreak else ShortBreak
  }

  /** `transition(to:)`: the new phase, its full time, running. */
  function Transitioned(s: Settings, st: TimerState, p: Phase): (r: TimerState)
    ensures r.phase == p && r.isRunning && r.secondsRemaining == TotalSeconds(s, p)
    ensures r.completedFocusCount == st.completedFocusCount
    ensures Valid(s, st) ==> Valid(s, r)
  {
    st.(phase := p, secondsRemaining := TotalSeconds(s, p), isRunning := true)
  }

  /** `handlePhaseCompletion`. */
  function Completed(s: Settings, st: TimerState): (r: TimerState)
    ensures r.phase != st.phase && r.isRunning && r.secondsRemaining == TotalSeconds(s, r.phase)
    ensures r.completedFocusCount == if st.phase == Focus then st.completedFocusCount + 1 else st.completedFocusCount
    ensures r.phase == Focus <==> st.phase != Focus
  {
    var paused := st.(isRunning := false);
    match st.phase
    case Focus =>
      var count := st.completedFocusCount + 1;
      Transitioned(s, paused.(completedFocusCount := count), BreakAfter(s, count))
    case _ => Transitioned(s, paused, Focus)
  }

  /** `tick`. */
  function Ticked(s: Settings, st: TimerState): (r: TimerState)
    ensures st.secondsRemaining > 0 ==> r == st.(secondsRemaining := st.secondsRemaining - 1)
    ensures st.secondsRemaining <= 0 ==>
      r.phase != st.phase && r.isRunning && r.secondsRemaining == TotalSeconds(s, r.phase)
  {
    if st.secondsRemaining > 0 then st.(secondsRemaining := st.secondsRemaining - 1)
    else Completed(s, st)
  }

  /** `reset`: paused, with the current phase's full time. */
  function ResetState(s: Settings, st: TimerState): (r: TimerState)
    ensures r.phase == st.phase && !r.isRunning && r.completedFocusCount == st.completedFocusCount
    ensures r.secondsRemaining == TotalSeconds(s, r.phase)
  {
    st.(isRunning := false, secondsRemaining := TotalSeconds(s, st.phase))
  }

  /** The state after `init`. */
  function Initial(s: Settings): TimerState
  {
    TimerState(Focus, false, TotalSeconds(s, Focus), 0)
  }

  /** Durations are not negative, and the time left lies within the current phase's full time. */
  predicate Valid(s: Settings, st: TimerState)
  {
    && s.focusMinutes >= 0 && s.shortBreakMinutes >= 0 && s.longBreakMinutes >= 0
    && 0 <= st.secondsRemaining <= TotalSeconds(s, st.phase)
    && st.completedFocusCount >= 0
  }

  /** Every operation keeps the time left within bounds and the focus count from decreasing. */
  lemma OperationsKeepValid(s: Settings, st: TimerState, p: Phase)
    requires Valid(s, st)
    ensures Valid(s, Ticked(s, st)) && Ticked(s, st).completedFocusCount >= st.completedFocusCount
    ensures Valid(s, Completed(s, st)) && Valid(s, Transitioned(s, st, p)) && Valid(s, ResetState(s, st))
    ensures Valid(s, st.(isRunning := !st.isRunning))
  {
  }

  /** Completing focus counts it and picks the long break exactly on multiples of the interval. */
  lemma FocusCompletion(s: Settings, st: TimerState)
    requires st.phase == Focus && st.completedFocusCount >= 0
    ensures Completed(s, st).completedFocusCount == st.completedFocusCount + 1
    ensures Completed(s, st).phase == LongBreak <==>
      (st.completedFocusCount + 1) % Max(1, s.longBreakInterval) == 0
    ensures Completed(s, st).isRunning
    ensures Completed(s, st).secondsRemaining == TotalSeconds(s, Completed(s, st).phase)
  {
  }

  /** Completing a break returns to focus with its full time and leaves the count alone. */
  lemma BreakCompletion(s: Settings, st: TimerState)
    requires st.phase != Focus
    ensures Completed(s, st) == st.(phase := Focus, isRunning := true, secondsRemaining := TotalSeconds(s, Focus))
  {
  }

  /** `n` ticks in a row. */
  function Ticks(s: Settings, st: TimerState, n: nat): TimerState
    decreases n
  {
    if n == 0 then st else Ticks(s, Ticked(s, st), n - 1)
  }

  /**
   * Up to the time left, each tick takes one second off and nothing else;
   * the tick after the time reaches 0 completes the phase.
   */
  lemma {:induction false} TicksCountDown(s: Settings, st: TimerState, n: nat)
    requires n <= st.secondsRemaining
    ensures Ticks(s, st, n) == st.(secondsRemaining := st.secondsRemaining - n)
    ensures n == st.secondsRemaining ==>
      Ticks(s, st, n + 1) == Completed(s, st.(secondsRemaining := 0))
    decreases n
  {
    if n > 0 {
      var next := st.(secondsRemaining := st.secondsRemaining - 1);
      TicksCountDown(s, next, n - 1);
      if n == st.secondsRemaining {
        assert Ticks(s, st, n + 1) == Ticks(s, next, n);
      }
    }
  }

  // ---- the rendered time ----

  /** `String(format: "%02d", n)`: at least two digits, a minus sign before negatives. */
  function Format02(n: int): (r: string)
    ensures n >= 0 ==> |r| >= 2 && (forall k :: 0 <= k < |r| ==> IsDigit(r[k])) && DigitsValue(r) == n
    ensures 0 <= n < 100 ==> |r| == 2
    ensures n < 0 ==> |r| >= 2 && r[0] == '-'
  {
    if n >= 0 then Pad2(n) else "-" + NatString(-n)
  }

  /** `formattedTime` for a number of seconds: "MM:SS". */
  function FormatClock(seconds: int): (r: string)
    ensures seconds >= 0 ==>
      && |r| >= 5 && r[|r| - 3] == ':'
      && (forall k :: 0 <= k < |r| && k != |r| - 3 ==> IsDigit(r[k]))
      && DigitsValue(r[|r| - 2..]) < 60
      && DigitsValue(r[..|r| - 3]) * 60 + DigitsValue(r[|r| - 2..]) == seconds
    ensures 0 <= seconds < 6000 ==> |r| == 5
  {
    var m := SwiftQuotient(seconds, 60);
    var sec := SwiftRemainder(seconds, 60);
    var r := Format02(m) + ":" + Format02(sec);
    assert seconds >= 0 ==> r[..|r| - 3] == Pad2(m) && r[|r| - 2..] == Pad2(sec);
    r
  }

  /** The view model the timer screen observes. */
  class TimerViewModel {
    var focusMinutes: int
    var shortBreakMinutes: int
    var longBreakMinutes: int
    var longBreakInterval: int
    var alertSoundEnabled: bool
    var phase: Phase
    var isRunning: bool
    var secondsRemaining: int
    var completedFocusCount: int
    var selectedTaskIds: set<string>

    function CurrentSettings(): Settings
      reads this
    {
      Settings(focusMinutes, shortBreakMinutes, longBreakMinutes, longBreakInterval)
    }

    function State(): TimerState
      reads this
    {
      TimerState(phase, isRunning, secondsRemaining, completedFocusCount)
    }

    /** `init`: the stored settings (defaults shown), focus with its full time, stopped. */
    constructor ()
      ensures CurrentSettings() == DefaultSettings && alertSoundEnabled
      ensures State() == Initial(DefaultSettings) && Valid(CurrentSettings(), State())
      ensures secondsRemaining == TotalSecondsForPhase()
      ensures selectedTaskIds == {}
    {
      focusMinutes, shortBreakMinutes, longBreakMinutes, longBreakInterval := 25, 5, 15, 4;
      alertSoundEnabled := true;
      phase, isRunning, completedFocusCount := Focus, false, 0;
      selectedTaskIds := {};
      secondsRemaining := 0;
      new;
      ResetTimer(Focus);
    }

    /** `resetTimer(for:)`: only the time left changes. */
    method ResetTimer(p: Phase)
      modifies this
      ensures State() == old(State()).(secondsRemaining := TotalSeconds(CurrentSettings(), p))
      ensures p == phase ==> secondsRemaining == TotalSecondsForPhase()
      ensures CurrentSettings() == old(CurrentSettings())
      ensures selectedTaskIds == old(selectedTaskIds) && alertSoundEnabled == old(alertSoundEnabled)
    {
      var minutes: int;
      match p {
        case Focus => minutes := focusMinutes;
        case ShortBreak => minutes := shortBreakMinutes;
        case LongBreak => minutes := longBreakMinutes;
      }
      secondsRemaining := minutes * 60;
    }

    /** `start`, without the scheduled timer. */
    method Start()
      modifies this
      ensures State() == old(State()).(isRunning := true)
      ensures CurrentSettings() == old(CurrentSettings())
      ensures selectedTaskIds == old(selectedTaskIds) && alertSoundEnabled == old(alertSoundEnabled)
    {
      isRunning := true;
    }

    /** `pause`. */
    method Pause()
      modifies this
      ensures State() == old(State()).(isRunning := false)
      ensures CurrentSettings() == old(CurrentSettings())
      ensures selectedTaskIds == old(selectedTaskIds) && alertSoundEnabled == old(alertSoundEnabled)
    {
      isRunning := false;
    }

    /** `toggle`: flips `isRunning`, then starts or pauses accordingly. */
    method Toggle()
      modifies this
      ensures State() == old(State()).(isRunning := !old(isRunning))
      ensures CurrentSettings() == old(CurrentSettings())
      ensures selectedTaskIds == old(selectedTaskIds) && alertSoundEnabled == old(alertSoundEnabled)
    {
      isRunning := !isRunning;
      if isRunning {
        Start();
      } else {
        Pause();
      }
    }

    /** `reset`: pauses and restores the full time of the current phase. */
    method Reset()
      modifies this
      ensures State() == ResetState(CurrentSettings(), old(State()))
      ensures secondsRemaining == TotalSecondsForPhase()
      ensures CurrentSettings() == old(CurrentSettings())
      ensures selectedTaskIds == old(selectedTaskIds) && alertSoundEnabled == old(alertSoundEnabled)
    {
      Pause();
      ResetTimer(phase);
    }

    /** `openSettingsApplied`: re-applies the (possibly changed) duration of the current phase. */
    method OpenSettingsApplied()
      modifies this
      ensures State() == old(State()).(secondsRemaining := TotalSeconds(CurrentSettings(), old(phase)))
      ensures secondsRemaining == TotalSecondsForPhase()
      ensures CurrentSettings() == old(CurrentSettings())
      ensures selectedTaskIds == old(selectedTaskIds) && alertSoundEnabled == old(alertSoundEnabled)
    {
      ResetTimer(phase);
    }

    /** `transition(to:)`. */
    method Transition(newPhase: Phase)
      modifies this
      ensures State() == Transitioned(CurrentSettings(), old(State()), newPhase)
      ensures secondsRemaining == TotalSecondsForPhase()
      ensures CurrentSettings() == old(CurrentSettings())
      ensures selectedTaskIds == old(selectedTaskIds) && alertSoundEnabled == old(alertSoundEnabled)
    {
      phase := newPhase;
      ResetTimer(newPhase);
      Start();
    }

    /** `handlePhaseCompletion`, without the alert sound. */
    method HandlePhaseCompletion()
      modifies this
      ensures State() == Completed(CurrentSettings(), old(State()))
      ensures secondsRemaining == TotalSecondsForPhase()
      ensures CurrentSettings() == old(CurrentSettings())
      ensures selectedTaskIds == old(selectedTaskIds) && alertSoundEnabled == old(alertSoundEnabled)
    {
      Pause();
      match phase {
        case Focus =>
          completedFocusCount := completedFocusCount + 1;
          if SwiftRemainder(completedFocusCount, Max(1, longBreakInterval)) == 0 {
            Transition(LongBreak);
          } else {
            Transition(ShortBreak);
          }
        case ShortBreak =>
          Transition(Focus);
        case LongBreak =>
          Transition(Focus);
      }
    }

    /** `tick`: one second off, or the phase completes when none is left. */
    method Tick()
      modifies this
      ensures State() == Ticked(CurrentSettings(), old(State()))
      ensures CurrentSettings() == old(CurrentSettings())
      ensures selectedTaskIds == old(selectedTaskIds) && alertSoundEnabled == old(alertSoundEnabled)
    {
      if !(secondsRemaining > 0) {
        HandlePhaseCompletion();
        return;
      }
      secondsRemaining := secondsRemaining - 1;
    }

    /**
     * `totalSecondsForPhase`: the time `resetTimer(for: phase)` sets, which
     * `reset`, `openSettingsApplied` and `transition(to:)` restore.
     */
    function TotalSecondsForPhase(): (r: int)
      reads this
      ensures r == ResetState(CurrentSettings(), State()).secondsRemaining
      ensures Valid(CurrentSettings(), State()) ==> 0 <= secondsRemaining <= r
    {
      TotalSeconds(CurrentSettings(), phase)
    }

    /** `formattedTime()`. */
    function FormattedTime(): (r: string)
      reads this
      ensures secondsRemaining >= 0 ==>
        && |r| >= 5 && r[|r| - 3] == ':'
        && DigitsValue(r[|r| - 2..]) < 60
        && DigitsValue(r[..|r| - 3]) * 60 + DigitsValue(r[|r| - 2..]) == secondsRemaining
    {
      FormatClock(secondsRemaining)
    }
  }
}
