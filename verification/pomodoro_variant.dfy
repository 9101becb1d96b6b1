/** The second `HomePage` of the repository, in `src/app/home/home.page.spec.ts`:
    one counter `timeLeft` shared by the work session and the break, a flag
    `onBreak` saying which one it is counting, `isRunning`, and the text
    `countdown` shown on the page as `MM:SS`.

    Every text the page ever puts in `countdown` is the `MM:SS` rendering of some
    counter (the literal "25:00" of the initialiser and of `resetTimer` is the
    rendering of 1500), so the specification records that counter, `shown`,
    and the class keeps the text itself, tied to `shown` by its invariant.

    The body of the `interval(1000)` subscription becomes `Tick`, one elapsed
    second; `subscribed` stands for `timerSubscription` holding a subscription
    that has not been cancelled, and while there is none a second passes without
    effect.  The pure datatype `Page` and the functions over it are the
    specification; the class `HomePage` holds the fields and its methods are
    proved against them. */
module PomodoroVariant {
  import opened Text
  import Pomodoro

  const WorkDuration: int := 25 * 60
  const BreakDuration: int := 5 * 60

  /** The two notifications `fireNotification` is asked to send. */
  datatype Notice = WorkEnded | BreakEnded

  /** The message text of each notification. */
  function Message(n: Notice): (m: string)
    ensures m == "Work session completed!" <==> n == WorkEnded
    ensures m == "Break has ended!" <==> n == BreakEnded
  {
    match n
    case WorkEnded => "Work session completed!"
    case BreakEnded => "Break has ended!"
  }

  /** `updateCountdownDisplay`'s text for a counter `t`: `Math.floor(t / 60)` and
      `t % 60`, each turned into text and padded with '0' to two characters.  For a
      non-negative counter: the minutes and the seconds, each padded to two digits. */
  function CountdownText(t: int): (s: string)
    ensures t >= 0 ==> s == PadStart(NatText(t / 60), 2, '0') + ":" + PadStart(NatText(t % 60), 2, '0')
  {
    PadStart(IntText(t / 60), 2, '0') + ":" + PadStart(IntText(Rem60(t)), 2, '0')
  }

  /** The text of a non-negative counter is five characters exactly while the
      counter is below 100 minutes. */
  lemma CountdownTextShape(t: int)
    requires t >= 0
    ensures |CountdownText(t)| == 5 <==> t < 6000
  {
    var m := PadStart(NatText(t / 60), 2, '0');
    assert |PadStart(NatText(t % 60), 2, '0')| == 2;
    assert |m| == 2 <==> t / 60 < 100;
  }

  lemma FullWorkText()
    ensures CountdownText(WorkDuration) == "25:00"
    ensures CountdownText(BreakDuration) == "05:00"
  {
    CountdownTextShape(1500);
    CountdownTextShape(300);
    assert NatText(25) == NatText(2) + [DigitChar(5)];
    var zeros := PadStart(NatText(0), 2, '0');
    assert zeros == "00";
    assert PadStart(NatText(5), 2, '0') == "05";
    assert CountdownText(1500) == NatText(25) + ":" + zeros;
    assert CountdownText(300) == "05" + ":" + zeros;
  }

  /** The `MM:SS` text reads back as the counter's minutes and seconds. */
  lemma CountdownRoundTrip(t: int)
    requires t >= 0
    ensures ParseClock(CountdownText(t)) == Some(Clock(t / 60, t % 60))
    ensures Clock(t / 60, t % 60).Total() == t
  {
    CountdownTextShape(t);
    NatTextValue(t / 60);
    NatTextValue(t % 60);
    ZeroPadValue(NatText(t / 60), 2);
    ZeroPadValue(NatText(t % 60), 2);
    ParseClockJoin(PadStart(NatText(t / 60), 2, '0'), PadStart(NatText(t % 60), 2, '0'));
  }

  /** The two pages render a counter alike exactly from ten minutes on; below that
      this page pads the minutes to two digits and the other does not. */
  lemma SameTextFromTenMinutes(t: int)
    requires t >= 0
    ensures Pomodoro.MinSecText(t) == CountdownText(t) <==> t >= 600
  {
    CountdownTextShape(t);
    var m := NatText(t / 60);
    var rest := ":" + PadStart(NatText(t % 60), 2, '0');
    assert Pomodoro.MinSecText(t) == m + rest;
    assert CountdownText(t) == PadStart(m, 2, '0') + rest;
    if t < 600 {
      assert |PadStart(m, 2, '0') + rest| != |m + rest|;
    }
  }

  /** The page's state.  `shown` is the counter whose `MM:SS` text the `countdown`
      field holds. */
  datatype Page = Page(
    shown: int,
    isRunning: bool,
    timeLeft: int,
    onBreak: bool,
    subscribed: bool)

  /** The field initialisers: `countdown` starts as "25:00", the text of 1500. */
  const Initial: Page := Page(WorkDuration, false, WorkDuration, false, false)

  /** The invariant every operation keeps.  The counter stays within the work
      session's length and within the break's while on break; a live subscription
      always has a second left to count; a running page shows its own counter; and
      without a subscription the page is at rest showing "25:00". */
  predicate WellFormed(p: Page)
  {
    0 <= p.timeLeft <= WorkDuration &&
    0 <= p.shown <= WorkDuration &&
    (p.onBreak ==> p.timeLeft <= BreakDuration) &&
    (p.subscribed ==> p.timeLeft > 0) &&
    (p.isRunning ==> p.subscribed && p.shown == p.timeLeft) &&
    (!p.subscribed ==> !p.isRunning && !p.onBreak && p.shown == WorkDuration)
  }

  /** The notification chosen when the counter runs out: the message passed to
      `fireNotification` depends only on `onBreak`. */
  function CompletionNotice(onBreak: bool): (n: Notice)
    ensures Message(n) == "Break has ended!" <==> onBreak
    ensures Message(n) == "Work session completed!" <==> !onBreak
  {
    if onBreak then BreakEnded else WorkEnded
  }

  /** The page after one tick, and the notification the tick fired, if any. */
  datatype Step = Step(page: Page, notice: Option<Notice>)

  /** `updateCountdownDisplay`: the page shows its counter. */
  function ShowCounter(p: Page): Page
  {
    p.(shown := p.timeLeft)
  }

  /** `runTimer`: the display is refreshed and a subscription is taken. */
  function Subscribed(p: Page): Page
  {
    ShowCounter(p).(subscribed := true)
  }

  /** `startPomodoro`: always restarts the work session, showing all of it. */
  function Start(p: Page): (r: Page)
    ensures r.isRunning && r.subscribed && !r.onBreak
    ensures r.timeLeft == WorkDuration && r.shown == WorkDuration
    ensures WellFormed(r)
  {
    Subscribed(p.(isRunning := true, timeLeft := WorkDuration, onBreak := false))
  }

  /** `resetTimer`: the display goes back to "25:00" and the page stops running and
      leaves the break; the counter and the subscription are left as they are. */
  function Reset(p: Page): (r: Page)
    ensures r.shown == WorkDuration && !r.isRunning && !r.onBreak
    ensures r.timeLeft == p.timeLeft && r.subscribed == p.subscribed
    ensures WellFormed(p) ==> WellFormed(r)
  {
    p.(shown := WorkDuration, isRunning := false, onBreak := false)
  }

  /** One second elapses: while subscribed, the counter always drops by one and is
      shown first; when it is no longer positive the subscription is cancelled, the
      notification is chosen, and the work session turns into the break or the
      break ends in a reset. */
  function Advance(p: Page): (r: Step)
    ensures !p.subscribed ==> r == Step(p, None)
    ensures p.subscribed ==> r.page.timeLeft == p.timeLeft - 1 || r.page.timeLeft == BreakDuration
    ensures r.notice.Some? <==> p.subscribed && p.timeLeft <= 1
    ensures p.subscribed && p.timeLeft > 1 ==>
      r.page == p.(timeLeft := p.timeLeft - 1, shown := p.timeLeft - 1)
    ensures p.subscribed && p.timeLeft <= 1 && !p.onBreak ==>
      r.notice == Some(WorkEnded) &&
      r.page == Page(BreakDuration, p.isRunning, BreakDuration, true, true)
    ensures p.subscribed && p.timeLeft <= 1 && p.onBreak ==>
      r.notice == Some(BreakEnded) &&
      r.page == Page(WorkDuration, false, p.timeLeft - 1, false, false)
    ensures WellFormed(p) ==> WellFormed(r.page)
  {
    if !p.subscribed then Step(p, None)
    else
      var q := ShowCounter(p.(timeLeft := p.timeLeft - 1));
      if q.timeLeft <= 0 then
        var notice := CompletionNotice(q.onBreak);
        var cancelled := q.(subscribed := false);
        if !q.onBreak then Step(Subscribed(cancelled.(timeLeft := BreakDuration, onBreak := true)), Some(notice))
        else Step(Reset(cancelled), Some(notice))
      else Step(q, None)
  }

  /** `n` seconds elapse: the page afterwards and the notifications fired, in order. */
  function Run(p: Page, n: nat): (Page, seq<Notice>)
    decreases n
  {
    if n == 0 then (p, [])
    else
      var r := Advance(p);
      var rest := Run(r.page, n - 1);
      (rest.0, (if r.notice.Some? then [r.notice.value] else []) + rest.1)
  }

  /** The class whose fields the page's methods update in place. */
  class HomePage {
    var countdown: string
    var isRunning: bool
    var timeLeft: int
    var onBreak: bool
    var subscribed: bool
    ghost var shown: int

    ghost function Model(): Page
      reads this
    {
      Page(shown, isRunning, timeLeft, onBreak, subscribed)
    }

    ghost predicate Valid()
      reads this
    {
      countdown == CountdownText(shown) && WellFormed(Model())
    }

    constructor()
      ensures Valid() && Model() == Initial
    {
      countdown := "25:00";
      isRunning := false;
      timeLeft := WorkDuration;
      onBreak := false;
      subscribed := false;
      shown := WorkDuration;
      new;
      FullWorkText();
    }

    method StartPomodoro()
      modifies this
      ensures Valid() && Model() == Start(old(Model()))
    {
      isRunning := true;
      timeLeft := WorkDuration;
      onBreak := false;
      RunTimer();
    }

    method RunTimer()
      modifies this
      ensures countdown == CountdownText(shown)
      ensures Model() == Subscribed(old(Model()))
    {
      UpdateCountdownDisplay();
      subscribed := true;
    }

    method UpdateCountdownDisplay()
      modifies this
      ensures countdown == CountdownText(shown)
      ensures Model() == ShowCounter(old(Model()))
    {
      var minutes := PadStart(IntText(timeLeft / 60), 2, '0');
      var seconds := PadStart(IntText(Rem60(timeLeft)), 2, '0');
      countdown := minutes + ":" + seconds;
      shown := timeLeft;
    }

    /** One elapsed second; the subscription's callback runs only while subscribed.
        The result is the notification whose message is handed to
        `fireNotification`, if any. */
    method Tick() returns (notice: Option<Notice>)
      requires Valid()
      modifies this
      ensures Valid() && Step(Model(), notice) == Advance(old(Model()))
    {
      notice := None;
      if subscribed {
        timeLeft := timeLeft - 1;
        UpdateCountdownDisplay();
        if timeLeft <= 0 {
          subscribed := false;
          notice := Some(CompletionNotice(onBreak));
          if !onBreak {
            timeLeft := BreakDuration;
            onBreak := true;
            RunTimer();
          } else {
            ResetTimer();
          }
        }
      }
    }

    method ResetTimer()
      modifies this
      ensures countdown == CountdownText(shown)
      ensures Model() == Reset(old(Model()))
    {
      FullWorkText();
      countdown := "25:00";
      isRunning := false;
      onBreak := false;
      shown := WorkDuration;
    }
  }

  lemma {:induction false} RunWellFormed(p: Page, n: nat)
    requires WellFormed(p)
    ensures WellFormed(Run(p, n).0)
    decreases n
  {
    if n > 0 {
      RunWellFormed(Advance(p).page, n - 1);
    }
  }

  /** Running `a` seconds and then `b` more is running `a + b` seconds. */
  lemma {:induction false} RunSplit(p: Page, a: nat, b: nat)
    ensures Run(p, a + b).0 == Run(Run(p, a).0, b).0
    ensures Run(p, a + b).1 == Run(p, a).1 + Run(Run(p, a).0, b).1
    decreases a
  {
    if a > 0 {
      RunSplit(Advance(p).page, a - 1, b);
    }
  }

  /** While subscribed, whatever the display shows (after `resetTimer` it shows
      "25:00"), each second takes exactly one off the counter and shows the new
      value, until the last second. */
  lemma {:induction false} Countdown(p: Page, k: nat)
    requires p.subscribed && 0 < k < p.timeLeft
    ensures Run(p, k).0 == p.(timeLeft := p.timeLeft - k, shown := p.timeLeft - k)
    ensures Run(p, k).1 == []
    decreases k
  {
    var q := p.(timeLeft := p.timeLeft - 1, shown := p.timeLeft - 1);
    assert Advance(p) == Step(q, None);
    if k > 1 {
      Countdown(q, k - 1);
      assert q.(timeLeft := q.timeLeft - (k - 1), shown := q.timeLeft - (k - 1)) ==
        p.(timeLeft := p.timeLeft - k, shown := p.timeLeft - k);
    }
  }

  /** Without a subscription, seconds pass without any effect. */
  lemma {:induction false} UnsubscribedRun(p: Page, n: nat)
    requires !p.subscribed
    ensures Run(p, n).0 == p && Run(p, n).1 == []
    decreases n
  {
    if n > 0 {
      UnsubscribedRun(p, n - 1);
    }
  }

  /** Right after `startPomodoro` the page shows "25:00"; the break starts at "05:00". */
  lemma StartShows(p: Page)
    ensures CountdownText(Start(p).shown) == "25:00"
    ensures CountdownText(BreakDuration) == "05:00"
  {
    FullWorkText();
  }

  /** From `startPomodoro`, 1500 seconds end the work session: one "Work session
      completed!" notification, and the page counts the break from 300, showing it. */
  lemma WorkSession(p: Page)
    ensures Run(Start(p), WorkDuration).0 == Page(BreakDuration, true, BreakDuration, true, true)
    ensures Run(Start(p), WorkDuration).1 == [WorkEnded]
  {
    var s := Start(p);
    Countdown(s, WorkDuration - 1);
    RunSplit(s, WorkDuration - 1, 1);
  }

  /** 300 further seconds end the break: one "Break has ended!" notification, and the
      page is at rest showing "25:00" with a counter of 0; later seconds change nothing. */
  lemma FullCycle(p: Page, n: nat)
    ensures Run(Start(p), WorkDuration + BreakDuration).0 == Page(WorkDuration, false, 0, false, false)
    ensures Run(Start(p), WorkDuration + BreakDuration).1 == [WorkEnded, BreakEnded]
    ensures Run(Start(p), WorkDuration + BreakDuration + n).0 == Page(WorkDuration, false, 0, false, false)
  {
    var s := Start(p);
    WorkSession(p);
    var b := Run(s, WorkDuration).0;
    Countdown(b, BreakDuration - 1);
    RunSplit(b, BreakDuration - 1, 1);
    RunSplit(s, WorkDuration, BreakDuration);
    var e := Run(s, WorkDuration + BreakDuration).0;
    UnsubscribedRun(e, n);
    RunSplit(s, WorkDuration + BreakDuration, n);
  }

  /** `resetTimer` cancels no subscription: a page reset while counting keeps counting
      on the next second, showing the counter again although it is no longer running. */
  lemma ResetKeepsCounting(p: Page)
    requires WellFormed(p) && p.subscribed && p.timeLeft > 1
    ensures var r := Advance(Reset(p)).page;
      !r.isRunning && r.subscribed && r.timeLeft == p.timeLeft - 1 && r.shown == p.timeLeft - 1
  {
  }
}
