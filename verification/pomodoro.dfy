/** The Pomodoro page of `src/app/home/home.page.ts`: a 25-minute work countdown
    (`timeLeft`) and a 5-minute break countdown (`breakTimeLeft`), driven by a
    once-a-second interval, with pause, resume and reset.

    The interval callback becomes `Tick`, one elapsed second; the body of the
    3-second `setTimeout` that `startBreak` schedules becomes `BeginBreak`, which
    the caller invokes after a tick has reported `PomodoroComplete`.  The pure
    datatype `Page` and the functions over it are the specification; the class
    `HomePage` holds the page's fields and its methods are proved against them. */
module Pomodoro {
  import opened Text

  const PomodoroSeconds: int := 25 * 60
  const BreakSeconds: int := 5 * 60

  /** The page's timer state.  `timerRunning` stands for the `timer` field holding
      an interval that has been started and not cleared. */
  datatype Page = Page(
    timeLeft: int,
    breakTimeLeft: int,
    isPomodoroActive: bool,
    isBreakActive: bool,
    isPaused: bool,
    timerRunning: bool)

  /** The field initialisers. */
  const Initial: Page := Page(PomodoroSeconds, BreakSeconds, false, false, false, false)

  /** The invariant every operation keeps: both counters within their phase's
      length, and never both phases at once. */
  predicate WellFormed(p: Page)
  {
    0 <= p.timeLeft <= PomodoroSeconds &&
    0 <= p.breakTimeLeft <= BreakSeconds &&
    !(p.isPomodoroActive && p.isBreakActive)
  }

  /** What `timerComplete` acts on: the end of a work session (it notifies and
      schedules the break) or of a break (it notifies and resets). */
  datatype Completion = PomodoroComplete | BreakComplete

  /** The title `timerComplete` passes to `notify`: one per completion. */
  function NotificationTitle(c: Completion): (t: string)
    ensures t == "Pomodoro Complete!" <==> c == PomodoroComplete
    ensures t == "Break Complete!" <==> c == BreakComplete
  {
    match c
    case PomodoroComplete => "Pomodoro Complete!"
    case BreakComplete => "Break Complete!"
  }

  /** The body `timerComplete` passes to `notify`. */
  function NotificationBody(c: Completion): (b: string)
    ensures b == "Time for a 5-minute break." <==> c == PomodoroComplete
    ensures b == "Back to work!" <==> c == BreakComplete
  {
    match c
    case PomodoroComplete => "Time for a 5-minute break."
    case BreakComplete => "Back to work!"
  }

  /** The page after one tick, and the completion the tick acted on, if any. */
  datatype TickResult = TickResult(page: Page, completion: Option<Completion>)

  /** `startTimer`: an interval is running afterwards. */
  function TimerStarted(p: Page): Page
  {
    p.(timerRunning := true)
  }

  /** `resumeTimer`. */
  function Resume(p: Page): (r: Page)
    ensures !r.isPaused && r.timerRunning
    ensures r.timeLeft == p.timeLeft && r.breakTimeLeft == p.breakTimeLeft
    ensures r.isPomodoroActive == p.isPomodoroActive && r.isBreakActive == p.isBreakActive
  {
    TimerStarted(p.(isPaused := false))
  }

  /** `startPomodoro`: resumes a paused page, and otherwise restarts the work countdown. */
  function Start(p: Page): (r: Page)
    ensures r.timerRunning && !r.isPaused
    ensures p.isPaused ==> r == Resume(p)
    ensures !p.isPaused ==>
      r.isPomodoroActive && !r.isBreakActive &&
      r.timeLeft == PomodoroSeconds && r.breakTimeLeft == p.breakTimeLeft
    ensures !p.isPaused ==> ProgressPercentage(r) == 100.0
    ensures WellFormed(p) ==> WellFormed(r)
  {
    if p.isPaused then Resume(p)
    else TimerStarted(p.(isPomodoroActive := true, isBreakActive := false, timeLeft := PomodoroSeconds))
  }

  /** `pauseTimer`: the interval is cleared and the page is marked paused. */
  function Pause(p: Page): (r: Page)
    ensures r.isPaused && !r.timerRunning
    ensures r.timeLeft == p.timeLeft && r.breakTimeLeft == p.breakTimeLeft
    ensures r.isPomodoroActive == p.isPomodoroActive && r.isBreakActive == p.isBreakActive
  {
    p.(isPaused := true, timerRunning := false)
  }

  /** `resetTimer`: both counters back to their full length, no phase active; the
      pause flag and the interval are left as they were. */
  function Reset(p: Page): (r: Page)
    ensures r.timeLeft == PomodoroSeconds && r.breakTimeLeft == BreakSeconds
    ensures !r.isPomodoroActive && !r.isBreakActive
    ensures r.isPaused == p.isPaused && r.timerRunning == p.timerRunning
    ensures WellFormed(r)
  {
    p.(timeLeft := PomodoroSeconds, breakTimeLeft := BreakSeconds,
       isPomodoroActive := false, isBreakActive := false)
  }

  /** The deferred body of `startBreak`: the break phase begins with a full break
      countdown and an interval is started. */
  function BreakStart(p: Page): (r: Page)
    ensures !r.isPomodoroActive && r.isBreakActive && r.breakTimeLeft == BreakSeconds
    ensures r.timeLeft == p.timeLeft && r.isPaused == p.isPaused && r.timerRunning
    ensures ProgressPercentage(r) == 100.0
    ensures WellFormed(p) ==> WellFormed(r)
  {
    TimerStarted(p.(isPomodoroActive := false, isBreakActive := true, breakTimeLeft := BreakSeconds))
  }

  /** Neither active phase has time left: the tick goes to `timerComplete`. */
  predicate Exhausted(p: Page)
  {
    !(p.isPomodoroActive && p.timeLeft > 0) && !(p.isBreakActive && p.breakTimeLeft > 0)
  }

  /** The state part of `timerComplete`: the end of work changes nothing yet (the
      break starts later), the end of a break resets the page, and an idle page is
      left alone without any completion. */
  function Complete(p: Page): (r: TickResult)
    ensures r.completion == Some(PomodoroComplete) <==> p.isPomodoroActive
    ensures r.completion == Some(BreakComplete) <==> !p.isPomodoroActive && p.isBreakActive
    ensures r.completion == Some(BreakComplete) ==> r.page == Reset(p)
    ensures r.completion != Some(BreakComplete) ==> r.page == p
    ensures WellFormed(p) ==> WellFormed(r.page)
  {
    if p.isPomodoroActive then TickResult(p, Some(PomodoroComplete))
    else if p.isBreakActive then TickResult(Reset(p), Some(BreakComplete))
    else TickResult(p, None)
  }

  /** One second elapses: the interval callback runs if an interval is running. */
  function Advance(p: Page): (r: TickResult)
    ensures !p.timerRunning ==> r == TickResult(p, None)
    ensures p.timerRunning && p.isPomodoroActive && p.timeLeft > 0 ==>
      r == TickResult(p.(timeLeft := p.timeLeft - 1), None)
    ensures p.timerRunning && !p.isPomodoroActive && p.isBreakActive && p.breakTimeLeft > 0 ==>
      r == TickResult(p.(breakTimeLeft := p.breakTimeLeft - 1), None)
    ensures r.completion == Some(PomodoroComplete) <==> p.timerRunning && p.isPomodoroActive && Exhausted(p)
    ensures r.completion == Some(BreakComplete) <==>
      p.timerRunning && !p.isPomodoroActive && p.isBreakActive && Exhausted(p)
    ensures r.completion == Some(PomodoroComplete) ==> r.page == p
    ensures p.timerRunning && !p.isPomodoroActive && !p.isBreakActive ==> r == TickResult(p, None)
    ensures r.completion == Some(BreakComplete) ==> r.page == Reset(p)
    ensures r.completion == None ==>
      r.page == p ||
      (p.timeLeft > 0 && r.page == p.(timeLeft := p.timeLeft - 1)) ||
      (p.breakTimeLeft > 0 && r.page == p.(breakTimeLeft := p.breakTimeLeft - 1))
    ensures r.page.isPaused == p.isPaused && r.page.timerRunning == p.timerRunning
    ensures p.timeLeft >= 0 && p.breakTimeLeft >= 0 ==> r.page.timeLeft >= 0 && r.page.breakTimeLeft >= 0
    ensures WellFormed(p) ==> WellFormed(r.page)
  {
    if !p.timerRunning then TickResult(p, None)
    else if p.isPomodoroActive && p.timeLeft > 0 then TickResult(p.(timeLeft := p.timeLeft - 1), None)
    else if p.isBreakActive && p.breakTimeLeft > 0 then TickResult(p.(breakTimeLeft := p.breakTimeLeft - 1), None)
    else Complete(p)
  }

  /** `getProgressPercentage`: the share of the active phase still to run, in per cent.
      The source divides in floating point; here the quotient is exact. */
  function ProgressPercentage(p: Page): (r: real)
    ensures r >= 0.0
    ensures r > 0.0 <==> (p.isPomodoroActive && p.timeLeft > 0) || (p.isBreakActive && p.breakTimeLeft > 0)
    ensures WellFormed(p) ==> r <= 100.0
    ensures p.isPomodoroActive && p.timeLeft > 0 ==> r * 1500.0 == p.timeLeft as real * 100.0
    ensures !(p.isPomodoroActive && p.timeLeft > 0) && p.isBreakActive && p.breakTimeLeft > 0 ==>
      r * 300.0 == p.breakTimeLeft as real * 100.0
  {
    if p.isPomodoroActive && p.timeLeft > 0 then (p.timeLeft as real / (25 * 60) as real) * 100.0
    else if p.isBreakActive && p.breakTimeLeft > 0 then (p.breakTimeLeft as real / (5 * 60) as real) * 100.0
    else 0.0
  }

  /** The `m:ss` text of `getFormattedTime` for a counter `t`: `Math.floor(t / 60)`
      (Dafny's `/` by a positive divisor rounds down too), a colon, and `t % 60`
      with a '0' in front when it is below 10.  For a non-negative counter this is
      the minutes followed by the seconds padded to two digits. */
  function MinSecText(t: int): (s: string)
    ensures t >= 0 ==> s == NatText(t / 60) + ":" + PadStart(NatText(t % 60), 2, '0')
  {
    var minutes := t / 60;
    var seconds := Rem60(t);
    IntText(minutes) + ":" + (if seconds < 10 then "0" + IntText(seconds) else IntText(seconds))
  }

  /** `getFormattedTime`: the active phase's counter as `m:ss`, "00:00" when no phase is active. */
  function FormattedTime(p: Page): (s: string)
    ensures !p.isPomodoroActive && !p.isBreakActive ==> s == "00:00"
    ensures p.isPomodoroActive && p.timeLeft >= 0 ==>
      s == NatText(p.timeLeft / 60) + ":" + PadStart(NatText(p.timeLeft % 60), 2, '0')
    ensures !p.isPomodoroActive && p.isBreakActive && p.breakTimeLeft >= 0 ==>
      s == NatText(p.breakTimeLeft / 60) + ":" + PadStart(NatText(p.breakTimeLeft % 60), 2, '0')
  {
    if p.isPomodoroActive then MinSecText(p.timeLeft)
    else if p.isBreakActive then MinSecText(p.breakTimeLeft)
    else "00:00"
  }

  /** The class whose fields the page's methods update in place. */
  class HomePage {
    var timeLeft: int
    var breakTimeLeft: int
    var isPomodoroActive: bool
    var isBreakActive: bool
    var isPaused: bool
    var timerRunning: bool

    function Model(): Page
      reads this
    {
      Page(timeLeft, breakTimeLeft, isPomodoroActive, isBreakActive, isPaused, timerRunning)
    }

    predicate Valid()
      reads this
    {
      WellFormed(Model())
    }

    constructor()
      ensures Valid() && Model() == Initial
    {
      timeLeft := 25 * 60;
      breakTimeLeft := 5 * 60;
      isPomodoroActive := false;
      isBreakActive := false;
      isPaused := false;
      timerRunning := false;
    }

    method StartPomodoro()
      requires Valid()
      modifies this
      ensures Valid() && Model() == Start(old(Model()))
    {
      if isPaused {
        ResumeTimer();
      } else {
        isPomodoroActive := true;
        isBreakActive := false;
        timeLeft := 25 * 60;
        StartTimer();
      }
    }

    /** The body of the `setTimeout` callback that `startBreak` schedules. */
    method BeginBreak()
      requires Valid()
      modifies this
      ensures Valid() && Model() == BreakStart(old(Model()))
    {
      isPomodoroActive := false;
      isBreakActive := true;
      breakTimeLeft := 5 * 60;
      StartTimer();
    }

    method StartTimer()
      modifies this
      ensures Model() == TimerStarted(old(Model()))
    {
      timerRunning := true;
    }

    /** One elapsed second; the interval callback runs only while an interval is running. */
    method Tick() returns (completion: Option<Completion>)
      requires Valid()
      modifies this
      ensures Valid() && TickResult(Model(), completion) == Advance(old(Model()))
    {
      if !timerRunning {
        completion := None;
      } else if isPomodoroActive && timeLeft > 0 {
        timeLeft := timeLeft - 1;
        completion := None;
      } else if isBreakActive && breakTimeLeft > 0 {
        breakTimeLeft := breakTimeLeft - 1;
        completion := None;
      } else {
        var message;
        completion, message := TimerComplete();
      }
    }

    method PauseTimer()
      requires Valid()
      modifies this
      ensures Valid() && Model() == Pause(old(Model()))
    {
      timerRunning := false;
      isPaused := true;
    }

    method ResumeTimer()
      requires Valid()
      modifies this
      ensures Valid() && Model() == Resume(old(Model()))
    {
      isPaused := false;
      StartTimer();
    }

    /** `timerComplete`: its state change, and the title and body it hands to
        `notify` (the notification itself and the vibration are left to the caller). */
    method TimerComplete() returns (completion: Option<Completion>, message: Option<(string, string)>)
      requires Valid()
      modifies this
      ensures Valid() && TickResult(Model(), completion) == Complete(old(Model()))
      ensures message.Some? <==> completion.Some?
      ensures completion.Some? ==>
        message.value == (NotificationTitle(completion.value), NotificationBody(completion.value))
    {
      if isPomodoroActive {
        completion := Some(PomodoroComplete);
        message := Some(("Pomodoro Complete!", "Time for a 5-minute break."));
      } else if isBreakActive {
        completion := Some(BreakComplete);
        message := Some(("Break Complete!", "Back to work!"));
        ResetTimer();
      } else {
        completion := None;
        message := None;
      }
    }

    method ResetTimer()
      modifies this
      ensures Valid() && Model() == Reset(old(Model()))
    {
      timeLeft := 25 * 60;
      breakTimeLeft := 5 * 60;
      isPomodoroActive := false;
      isBreakActive := false;
    }
  }

  /** `n` seconds elapse: the page afterwards and the completions the ticks acted on, in order. */
  function Run(p: Page, n: nat): (Page, seq<Completion>)
    decreases n
  {
    if n == 0 then (p, [])
    else
      var r := Advance(p);
      var rest := Run(r.page, n - 1);
      (rest.0, (if r.completion.Some? then [r.completion.value] else []) + rest.1)
  }

  lemma {:induction false} RunWellFormed(p: Page, n: nat)
    requires WellFormed(p)
    ensures WellFormed(Run(p, n).0)
    decreases n
  {
    if n > 0 {
      RunWellFormed(Advance(p).page, n - 1);
    }
  }

  /** Running `a` seconds and then `b` more is running `a + b` seconds. */
  lemma {:induction false} RunSplit(p: Page, a: nat, b: nat)
    ensures Run(p, a + b).0 == Run(Run(p, a).0, b).0
    ensures Run(p, a + b).1 == Run(p, a).1 + Run(Run(p, a).0, b).1
    decreases a
  {
    if a > 0 {
      RunSplit(Advance(p).page, a - 1, b);
    }
  }

  /** While work is active, each second takes exactly one off `timeLeft` and nothing else. */
  lemma {:induction false} WorkCountdown(p: Page, k: nat)
    requires p.timerRunning && p.isPomodoroActive && k <= p.timeLeft
    ensures Run(p, k).0 == p.(timeLeft := p.timeLeft - k) && Run(p, k).1 == []
    decreases k
  {
    if k > 0 {
      var q := p.(timeLeft := p.timeLeft - 1);
      assert Advance(p) == TickResult(q, None);
      WorkCountdown(q, k - 1);
      assert q.(timeLeft := q.timeLeft - (k - 1)) == p.(timeLeft := p.timeLeft - k);
    }
  }

  /** While only the break is active, each second takes exactly one off `breakTimeLeft`. */
  lemma {:induction false} BreakCountdown(p: Page, k: nat)
    requires p.timerRunning && !p.isPomodoroActive && p.isBreakActive && k <= p.breakTimeLeft
    ensures Run(p, k).0 == p.(breakTimeLeft := p.breakTimeLeft - k) && Run(p, k).1 == []
    decreases k
  {
    if k > 0 {
      var q := p.(breakTimeLeft := p.breakTimeLeft - 1);
      assert Advance(p) == TickResult(q, None);
      BreakCountdown(q, k - 1);
      assert q.(breakTimeLeft := q.breakTimeLeft - (k - 1)) == p.(breakTimeLeft := p.breakTimeLeft - k);
    }
  }

  /** While no interval runs (after `pauseTimer`), seconds pass without any effect. */
  lemma {:induction false} StoppedRun(p: Page, n: nat)
    requires !p.timerRunning
    ensures Run(p, n).0 == p && Run(p, n).1 == []
    decreases n
  {
    if n > 0 {
      assert Advance(p) == TickResult(p, None);
      StoppedRun(p, n - 1);
    }
  }

  /** Pausing freezes the page however long it stays paused, and `startPomodoro`
      then resumes from the same counters and phase. */
  lemma PauseThenResume(p: Page, n: nat)
    ensures Run(Pause(p), n).0 == Pause(p) && Run(Pause(p), n).1 == []
    ensures Start(Run(Pause(p), n).0) == p.(isPaused := false, timerRunning := true)
  {
    StoppedRun(Pause(p), n);
  }

  /** From a non-paused start, 1500 seconds bring `timeLeft` to 0 while work is still
      active, and the next second reports the end of the work session. */
  lemma WorkSession(p: Page)
    requires !p.isPaused
    ensures Run(Start(p), PomodoroSeconds).0 == Start(p).(timeLeft := 0)
    ensures Run(Start(p), PomodoroSeconds).1 == []
    ensures Run(Start(p), PomodoroSeconds + 1).0 == Start(p).(timeLeft := 0)
    ensures Run(Start(p), PomodoroSeconds + 1).1 == [PomodoroComplete]
  {
    var s := Start(p);
    WorkCountdown(s, PomodoroSeconds);
    RunSplit(s, PomodoroSeconds, 1);
  }

  /** A whole cycle: work ends after 1501 seconds; once the deferred break start has
      run, 300 seconds empty the break counter and the next one resets the page. */
  lemma FullCycle(p: Page)
    requires !p.isPaused
    ensures var w := Run(Start(p), PomodoroSeconds + 1);
      w.1 == [PomodoroComplete] &&
      Run(BreakStart(w.0), BreakSeconds + 1).0 == Page(PomodoroSeconds, BreakSeconds, false, false, false, true) &&
      Run(BreakStart(w.0), BreakSeconds + 1).1 == [BreakComplete]
  {
    WorkSession(p);
    var b := BreakStart(Start(p).(timeLeft := 0));
    BreakCountdown(b, BreakSeconds);
    RunSplit(b, BreakSeconds, 1);
  }

  lemma ResetIdempotent(p: Page)
    ensures Reset(Reset(p)) == Reset(p)
  {
  }

  /** For a non-negative counter, the `m:ss` text reads back as its minutes and seconds. */
  lemma MinSecRoundTrip(t: int)
    requires t >= 0
    ensures ParseClock(MinSecText(t)) == Some(Clock(t / 60, t % 60))
  {
    NatTextValue(t / 60);
    NatTextValue(t % 60);
    ZeroPadValue(NatText(t % 60), 2);
    ParseClockJoin(NatText(t / 60), PadStart(NatText(t % 60), 2, '0'));
  }

  /** The text `getFormattedTime` shows reads back as the active counter's minutes
      and seconds ("00:00", i.e. zero, when no phase is active). */
  lemma FormattedTimeRoundTrip(p: Page)
    requires WellFormed(p)
    ensures var t := if p.isPomodoroActive then p.timeLeft else if p.isBreakActive then p.breakTimeLeft else 0;
      ParseClock(FormattedTime(p)) == Some(Clock(t / 60, t % 60)) &&
      Clock(t / 60, t % 60).Total() == t
  {
    if p.isPomodoroActive {
      MinSecRoundTrip(p.timeLeft);
    } else if p.isBreakActive {
      MinSecRoundTrip(p.breakTimeLeft);
    } else {
      assert DigitsValue("00") == 0;
      ParseClockJoin("00", "00");
      assert "00" + ":" + "00" == "00:00";
    }
  }

  /** Right after a non-paused start the page shows "25:00"; right after the break starts, "5:00". */
  lemma StartDisplays(p: Page)
    ensures !p.isPaused ==> FormattedTime(Start(p)) == "25:00"
    ensures FormattedTime(BreakStart(p)) == "5:00"
  {
    TextOfFullCounters();
  }

  lemma TextOfFullCounters()
    ensures MinSecText(PomodoroSeconds) == "25:00"
    ensures MinSecText(BreakSeconds) == "5:00"
  {
    assert NatText(25) == NatText(2) + [DigitChar(5)];
    var zeros := PadStart(NatText(0), 2, '0');
    assert zeros == "00";
    assert MinSecText(1500) == NatText(25) + ":" + zeros;
    assert MinSecText(300) == NatText(5) + ":" + zeros;
  }
}
