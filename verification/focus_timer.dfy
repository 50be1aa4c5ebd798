/** The focus/break countdown timer. The component's state is six variables; the one-second
    interval, the mode switch when the countdown reaches zero, the start/pause button and
    the reset button each change them in one step. */
module Focus {
  import opened Options
  import opened Text

  datatype Mode = Focus | Break

  /** The component's state variables, durations in seconds. */
  datatype Timer = Timer(isRunning: bool, timeLeft: int, currentMode: Mode,
                         focusTime: int, breakTime: int, totalTime: int)

  /** The saved focus settings, durations in minutes. */
  datatype FocusSettings = FocusSettings(focusMinutes: int, breakMinutes: int)

  const DefaultFocusTime: int := 25 * 60
  const DefaultBreakTime: int := 5 * 60

  function Other(m: Mode): Mode {
    if m == Focus then Break else Focus
  }

  /** The length of a session of mode `m`. */
  function Duration(t: Timer, m: Mode): int {
    if m == Focus then t.focusTime else t.breakTime
  }

  /** The timer is well formed: non-negative durations, the session length shown as the
      progress bar's whole is the current mode's duration, and the time left lies within it. */
  ghost predicate Consistent(t: Timer) {
    t.focusTime >= 0 && t.breakTime >= 0 &&
    t.totalTime == Duration(t, t.currentMode) &&
    0 <= t.timeLeft <= t.totalTime
  }

  /** The state once mounted: the initial values, then the settings-loading effect, which
      converts saved minutes to seconds or, without saved settings, starts from the default
      focus length. */
  function Mounted(saved: Option<FocusSettings>): (t: Timer)
    ensures !t.isRunning && t.currentMode == Focus
    ensures saved.None? ==>
      t.focusTime == 1500 && t.breakTime == 300 && t.totalTime == 1500 && t.timeLeft == 1500
    ensures saved.Some? ==>
      t.focusTime == 60 * saved.value.focusMinutes && t.breakTime == 60 * saved.value.breakMinutes &&
      t.totalTime == t.focusTime && t.timeLeft == t.focusTime
  {
    var initial := Timer(false, 0, Focus, DefaultFocusTime, DefaultBreakTime, DefaultFocusTime);
    match saved
    case None => initial.(timeLeft := initial.focusTime)
    case Some(s) =>
      initial.(focusTime := s.focusMinutes * 60, breakTime := s.breakMinutes * 60,
               totalTime := s.focusMinutes * 60, timeLeft := s.focusMinutes * 60)
  }

  /** One step of the countdown effect: while running, a second elapses; at zero the mode
      switches and the new session starts at full length; a paused timer does nothing. */
  function Ticked(t: Timer): Timer {
    if t.isRunning && t.timeLeft > 0 then
      t.(timeLeft := t.timeLeft - 1)
    else if t.isRunning && t.timeLeft == 0 then
      var next := Other(t.currentMode);
      t.(currentMode := next, timeLeft := Duration(t, next), totalTime := Duration(t, next))
    else
      t
  }

  function Toggled(t: Timer): Timer {
    t.(isRunning := !t.isRunning)
  }

  function ResetTimer(t: Timer): Timer {
    t.(isRunning := false, timeLeft := Duration(t, t.currentMode))
  }

  /** `n` consecutive steps of the countdown. */
  function Ticks(t: Timer, n: nat): Timer
    decreases n
  {
    if n == 0 then t else Ticks(Ticked(t), n - 1)
  }

  /** Saved durations that are not negative give a well-formed timer, and so do the defaults. */
  lemma MountedConsistent(saved: Option<FocusSettings>)
    requires saved.Some? ==> saved.value.focusMinutes >= 0 && saved.value.breakMinutes >= 0
    ensures Consistent(Mounted(saved))
  {
  }

  /** Every step keeps the timer well formed; in particular the time left never becomes
      negative. */
  lemma StepsPreserveConsistency(t: Timer)
    requires Consistent(t)
    ensures Consistent(Ticked(t)) && Consistent(Toggled(t)) && Consistent(ResetTimer(t))
  {
  }

  lemma {:induction false} TicksPreserveConsistency(t: Timer, n: nat)
    requires Consistent(t)
    ensures Consistent(Ticks(t, n)) && Ticks(t, n).timeLeft >= 0
    decreases n
  {
    if n > 0 {
      StepsPreserveConsistency(t);
      TicksPreserveConsistency(Ticked(t), n - 1);
    }
  }

  /** A running timer with `k` seconds left counts down one second per step, changing
      nothing else, and reaches zero after exactly `k` steps. */
  lemma {:induction false} CountdownToZero(t: Timer, j: nat)
    requires t.isRunning && j <= t.timeLeft
    ensures Ticks(t, j) == t.(timeLeft := t.timeLeft - j)
    decreases j
  {
    if j > 0 {
      CountdownToZero(Ticked(t), j - 1);
    }
  }

  lemma {:induction false} TicksAdd(t: Timer, m: nat, n: nat)
    ensures Ticks(t, m + n) == Ticks(Ticks(t, m), n)
    decreases m
  {
    if m > 0 {
      TicksAdd(Ticked(t), m - 1, n);
    }
  }

  /** A running session with `k` seconds left ends after `k + 1` steps: the mode has
      switched, the timer still runs, and the other mode's session starts at full length. */
  lemma SessionEnds(t: Timer)
    requires t.isRunning && t.timeLeft >= 0
    ensures var u := Ticks(t, t.timeLeft + 1);
      u.isRunning && u.currentMode == Other(t.currentMode) &&
      u.timeLeft == Duration(t, u.currentMode) && u.totalTime == u.timeLeft &&
      u.focusTime == t.focusTime && u.breakTime == t.breakTime
  {
    CountdownToZero(t, t.timeLeft);
    TicksAdd(t, t.timeLeft, 1);
  }

  /** Left running from the start of a focus session, the timer returns to the same state
      after one focus session and one break, each including its switching step. */
  lemma FocusBreakCycle(t: Timer)
    requires Consistent(t) && t.isRunning && t.currentMode == Focus && t.timeLeft == t.focusTime
    ensures Ticks(t, t.focusTime + 1 + t.breakTime + 1) == t
  {
    SessionEnds(t);
    var u := Ticks(t, t.focusTime + 1);
    SessionEnds(u);
    TicksAdd(t, t.focusTime + 1, t.breakTime + 1);
  }

  /** A paused timer ignores the countdown. */
  lemma PausedTimerIsFrozen(t: Timer, n: nat)
    requires !t.isRunning
    ensures Ticks(t, n) == t
  {
  }

  /** Start/pause twice is no change. */
  lemma StartPauseTwice(t: Timer)
    ensures Toggled(Toggled(t)) == t
  {
  }

  /** After a reset of a well-formed timer the session is paused and full again, so the
      progress bar is back at its start; the mode is kept. */
  lemma ResetRestartsSession(t: Timer)
    requires Consistent(t)
    ensures var r := ResetTimer(t);
      !r.isRunning && r.timeLeft == r.totalTime && r.currentMode == t.currentMode
  {
  }

  /** `Math.floor(seconds / 60)` and JavaScript's `seconds % 60`, whose remainder takes the
      sign of the dividend. */
  function ClockFields(seconds: int): (r: (int, int))
    ensures seconds >= 0 ==> r.0 >= 0 && 0 <= r.1 < 60 && r.0 * 60 + r.1 == seconds
  {
    (seconds / 60, if seconds >= 0 then seconds % 60 else -((-seconds) % 60))
  }

  /** `padStart(2, '0')`. */
  function PadTwo(s: string): string {
    if |s| >= 2 then s else seq(2 - |s|, _ => '0') + s
  }

  /** The `MM:SS` rendering of a number of seconds. */
  function FormatTime(seconds: int): string {
    var (mins, secs) := ClockFields(seconds);
    PadTwo(IntToString(mins)) + ":" + PadTwo(IntToString(secs))
  }

  /** Position of the first ':' in `s`, or `|s|` when there is none. */
  function ColonIndex(s: string): (i: nat)
    ensures i <= |s| && ':' !in s[..i] && (i < |s| ==> s[i] == ':')
  {
    if s == [] then 0
    else if s[0] == ':' then 0
    else
      var i := ColonIndex(s[1..]);
      assert s[..i + 1] == [s[0]] + s[1..][..i];
      i + 1
  }

  /** Reads an `MM:SS` clock back as a number of seconds. */
  function ParseClock(s: string): int {
    var i := ColonIndex(s);
    60 * DigitsValue(s[..i]) + (if i < |s| then DigitsValue(s[i + 1..]) else 0)
  }

  lemma {:induction false} ColonAfter(a: string, b: string)
    requires IsDigits(a)
    ensures ColonIndex(a + ":" + b) == |a|
    decreases |a|
  {
    if a == [] {
      assert (a + ":" + b)[0] == ':';
    } else {
      assert (a + ":" + b)[1..] == a[1..] + ":" + b;
      ColonAfter(a[1..], b);
    }
  }

  lemma PadTwoDigits(n: nat)
    ensures var p := PadTwo(NatToString(n));
      IsDigits(p) && DigitsValue(p) == n && |p| == if n < 100 then 2 else |NatToString(n)|
  {
    var d := NatToString(n);
    NatToStringValue(n);
    if |d| < 2 {
      assert PadTwo(d) == "0" + d;
      LeadingZeroValue(d);
    }
  }

  /** Reading the clock back gives the number of seconds, for every non-negative count
      (minutes beyond 99 simply take more digits). */
  lemma {:induction false} FormatTimeRoundTrip(seconds: int)
    requires seconds >= 0
    ensures ParseClock(FormatTime(seconds)) == seconds
  {
    var (mins, secs) := ClockFields(seconds);
    var m, s := PadTwo(NatToString(mins)), PadTwo(NatToString(secs));
    PadTwoDigits(mins);
    PadTwoDigits(secs);
    var r := m + ":" + s;
    assert FormatTime(seconds) == r;
    ColonAfter(m, s);
    assert r[..|m|] == m && r[|m| + 1..] == s;
  }

  /** Below 100 minutes the clock is exactly five characters, two digits, a colon and two
      digits. */
  lemma ClockShape(seconds: int)
    requires 0 <= seconds < 6000
    ensures var r := FormatTime(seconds);
      |r| == 5 && r[2] == ':' && IsDigits(r[..2]) && IsDigits(r[3..]) &&
      DigitsValue(r[..2]) == seconds / 60 && DigitsValue(r[3..]) == seconds % 60
  {
    var (mins, secs) := ClockFields(seconds);
    PadTwoDigits(mins);
    PadTwoDigits(secs);
    var m, s := PadTwo(NatToString(mins)), PadTwo(NatToString(secs));
    assert FormatTime(seconds) == m + ":" + s;
    assert (m + ":" + s)[..2] == m && (m + ":" + s)[3..] == s;
  }

  /** The component: its state variables and its handlers. */
  class FocusTimer {
    var isRunning: bool
    var timeLeft: int
    var currentMode: Mode
    var focusTime: int
    var breakTime: int
    var totalTime: int

    function State(): Timer
      reads this
    {
      Timer(isRunning, timeLeft, currentMode, focusTime, breakTime, totalTime)
    }

    constructor (saved: Option<FocusSettings>)
      ensures State() == Mounted(saved)
    {
      isRunning := false;
      timeLeft := 0;
      currentMode := Focus;
      focusTime := 25 * 60;
      breakTime := 5 * 60;
      totalTime := 25 * 60;
      if saved.Some? {
        focusTime := saved.value.focusMinutes * 60;
        breakTime := saved.value.breakMinutes * 60;
        totalTime := saved.value.focusMinutes * 60;
        timeLeft := saved.value.focusMinutes * 60;
      } else {
        timeLeft := focusTime;
      }
    }

    /** The countdown effect's next step (a second of the interval, or the switch at zero). */
    method Tick()
      modifies this
      ensures State() == Ticked(old(State()))
    {
      if isRunning && timeLeft > 0 {
        timeLeft := timeLeft - 1;
      } else if isRunning && timeLeft == 0 {
        if currentMode == Focus {
          currentMode := Break;
          timeLeft := breakTime;
          totalTime := breakTime;
        } else {
          currentMode := Focus;
          timeLeft := focusTime;
          totalTime := focusTime;
        }
      }
    }

    method StartPause()
      modifies this
      ensures State() == Toggled(old(State()))
    {
      isRunning := !isRunning;
    }

    method Reset()
      modifies this
      ensures State() == ResetTimer(old(State()))
    {
      isRunning := false;
      if currentMode == Focus {
        timeLeft := focusTime;
      } else {
        timeLeft := breakTime;
      }
    }

    /** The large clock: a well-formed timer's display reads back as the time left. */
    function Display(): (r: string)
      reads this
      ensures Consistent(State()) ==> ParseClock(r) == timeLeft
    {
      assert timeLeft >= 0 ==> ParseClock(FormatTime(timeLeft)) == timeLeft by {
        if timeLeft >= 0 { FormatTimeRoundTrip(timeLeft); }
      }
      FormatTime(timeLeft)
    }
  }
}
