# Pomodoro timer page, modelled in Dafny

The app is an Ionic/Angular page that runs a Pomodoro cycle. First a 25-minute work countdown runs. Then a 5-minute break runs. Then the page returns to rest. It exists in two variants, and each is modelled in its own module:

- `pomodoro.dfy`, module `Pomodoro`, models `src/app/home/home.page.ts`.
  - It has two counters, `timeLeft` (1500 s) and `breakTimeLeft` (300 s).
  - It has the flags `isPomodoroActive`, `isBreakActive` and `isPaused`.
  - A once-a-second interval drives it.
  - The break starts 3 seconds after the work session ends.
  - The page also offers pause, resume and reset, a progress percentage and an `m:ss` text.
- `pomodoro_variant.dfy`, module `PomodoroVariant`, models `src/app/home/home.page.spec.ts`.
  - Despite its name this file is a second page, not a test.
  - It has a single `timeLeft` shared by work and break, plus `onBreak` and `isRunning`.
  - Its `countdown` text is rendered as `MM:SS`, both parts padded to two digits.
- `text.dfy`, module `Text`, holds the text functions both formatters are built from:
  - the TypeScript `toString` of an integer;
  - `padStart`;
  - `%`, which truncates toward zero in TypeScript;
  - a parser for `minutes:seconds` text, which the round-trip lemmas read the rendered text back with.

Each variant has two layers:

- **Specification.** A datatype `Page` holds the page's state, and pure functions over it describe each operation. `Pomodoro` has `Start`, `Pause`, `Resume`, `Reset`, `BreakStart`, and `Advance` for one elapsed second. `PomodoroVariant` has `Start`, `Reset` and `Advance`, because the second page has no pause, resume or delayed break start. `Run(p, n)` is `n` seconds in a row, together with the completions or notifications fired along the way.
- **Class.** `HomePage` has the page's fields. Each method is proved to move `Model()` exactly as the matching function says. The operation methods keep the class invariant `Valid()`: the constructors, `StartPomodoro`, `BeginBreak`, `Tick`, `PauseTimer`, `ResumeTimer`, `TimerComplete` and `Pomodoro.HomePage.ResetTimer`. The helpers `Pomodoro.HomePage.StartTimer`, `PomodoroVariant.HomePage.RunTimer`, `UpdateCountdownDisplay` and `PomodoroVariant.HomePage.ResetTimer` are called in the middle of an operation, where the invariant may not hold. Their contracts state only the new fields. For example, `RunTimer` on the rest page left after a full cycle (counter 0) would take a subscription with no time left.

The interval callback becomes a `Tick` method, one elapsed second. A tick has no effect while no interval or subscription is live. In `home.page.ts`, the 3-second `setTimeout` that starts the break becomes `BeginBreak`. The caller invokes it after a tick has reported `PomodoroComplete`.

Where the two variants differ, each model follows its own code:

- In `home.page.ts`, `startPomodoro` on a paused page resumes it and keeps the counters. It does not restart the session.
- In `home.page.ts`, `resetTimer` restores the counters to 1500 and 300. It does not set them to zero, and it leaves `isPaused` and the running interval as they are.
- In `home.page.spec.ts`, `startPomodoro` always restarts.
- In `home.page.spec.ts`, `resetTimer` changes only `countdown`, `isRunning` and `onBreak`. It keeps `timeLeft` and does not cancel the subscription. So a page reset in the middle of a session keeps counting on the next second (`PomodoroVariant.ResetKeepsCounting`).

Neither page's reset sets the remaining time to 0. Only the `home.page.spec.ts` page always restarts on start.

## Model

| member | source | states |
|---|---|---|
| Text.NatText | src/app/home/home.page.spec.ts:79-80 | `toString` of a non-negative number is a non-empty string of digits. It starts with '0' only for 0. It has one digit below 10 and two digits from 10 to 99. |
| Text.NatTextValue | src/app/home/home.page.spec.ts:79-80 | The digits written by `toString` read back as the number. |
| Text.IntText | src/app/home/home.page.ts:165 | `toString` of an integer is `NatText` for a non-negative one. It starts with '-' exactly when the integer is negative. |
| Text.Rem60 | src/app/home/home.page.spec.ts:80 | TypeScript's `t % 60` lies strictly between -60 and 60. It differs from `t` by a multiple of 60. A non-zero result has the sign of `t`. |
| Text.PadStart | src/app/home/home.page.spec.ts:79-80 | `padStart(width, fill)` makes the text `width` long, or leaves it unchanged when it is already at least that long. |
| Text.PadStartShape | src/app/home/home.page.spec.ts:79-80 | The padded text ends with the original text, and everything in front of it is the fill character. |
| Text.ZeroPadValue | src/app/home/home.page.spec.ts:79-80 | Padding digits with '0' keeps them digits and keeps their value. |
| Pomodoro.HomePage.constructor | src/app/home/home.page.ts:15-20 | The field initialisers: 1500 and 300, every flag false, no interval running. The invariant holds. |
| Pomodoro.Start | src/app/home/home.page.ts:64-73 | A paused page is resumed: the counters and phase flags are unchanged and the pause flag is cleared. Otherwise work restarts at 1500 with the break flag off and `breakTimeLeft` kept, and the progress is exactly 100. An interval runs afterwards. The invariant is kept. |
| Pomodoro.HomePage.StartPomodoro | src/app/home/home.page.ts:64-73 | Updates the fields exactly as `Start` and keeps the invariant. |
| Pomodoro.BreakStart | src/app/home/home.page.ts:77-81 | The deferred break start sets the work flag off, the break flag on and `breakTimeLeft` to 300. It leaves `timeLeft` and the pause flag unchanged, starts an interval, and the progress is exactly 100. The invariant is kept. |
| Pomodoro.HomePage.BeginBreak | src/app/home/home.page.ts:77-81 | Updates the fields exactly as `BreakStart` and keeps the invariant. |
| Pomodoro.HomePage.StartTimer | src/app/home/home.page.ts:86-87 | Afterwards an interval is running, and nothing else changes. |
| Pomodoro.Advance | src/app/home/home.page.ts:87-95 | With no interval running, a tick does nothing. During work with time left, only `timeLeft` drops by 1. During the break with time left, only `breakTimeLeft` drops by 1. Otherwise the tick completes: at the end of work the state is unchanged; at the end of a break the page is reset; an idle page is left as it is. A tick never makes a counter negative, never touches the pause flag or the interval, and keeps the invariant. |
| Pomodoro.HomePage.Tick | src/app/home/home.page.ts:87-95 | Updates the fields and reports the completion exactly as `Advance`, and keeps the invariant. |
| Pomodoro.Pause | src/app/home/home.page.ts:99-102 | Sets the pause flag and stops the interval. The counters and phase flags are unchanged. |
| Pomodoro.HomePage.PauseTimer | src/app/home/home.page.ts:99-102 | Updates the fields exactly as `Pause` and keeps the invariant. |
| Pomodoro.Resume | src/app/home/home.page.ts:105-108 | Clears the pause flag and starts an interval. The counters and phase flags are unchanged. |
| Pomodoro.HomePage.ResumeTimer | src/app/home/home.page.ts:105-108 | Updates the fields exactly as `Resume` and keeps the invariant. |
| Pomodoro.NotificationTitle | src/app/home/home.page.ts:112-122 | The title passed to `notify` is "Pomodoro Complete!" exactly for the end of work and "Break Complete!" exactly for the end of a break. |
| Pomodoro.NotificationBody | src/app/home/home.page.ts:112-122 | The body passed to `notify` is "Time for a 5-minute break." exactly for the end of work and "Back to work!" exactly for the end of a break. |
| Pomodoro.Complete | src/app/home/home.page.ts:111-123 | Reports `PomodoroComplete` exactly when work is active, and leaves the state unchanged for the break to start later. Reports `BreakComplete` exactly when only the break is active, and resets the page. Reports nothing on an idle page and leaves it unchanged. The invariant is kept. |
| Pomodoro.HomePage.TimerComplete | src/app/home/home.page.ts:111-123 | Updates the fields and reports the completion exactly as `Complete`, and keeps the invariant. A message comes back exactly when a completion does: the title and body passed to `notify` for that completion. |
| Pomodoro.Reset | src/app/home/home.page.ts:142-147 | Sets the counters to 1500 and 300 and both phase flags off. It leaves the pause flag and the interval as they were, and the result satisfies the invariant. |
| Pomodoro.HomePage.ResetTimer | src/app/home/home.page.ts:142-147 | Updates the fields exactly as `Reset` and establishes the invariant. |
| Pomodoro.ResetIdempotent | src/app/home/home.page.ts:142-147 | Resetting twice is the same as resetting once. |
| Pomodoro.ProgressPercentage | src/app/home/home.page.ts:44-61 | The percentage is never negative. It is positive exactly when a phase is active with time left. Under the invariant it is at most 100. It is the active counter times 100 over the phase's length, stated by cross-multiplication. |
| Pomodoro.MinSecText | src/app/home/home.page.ts:150-166 | For a non-negative counter the text is the whole minutes, a ':', and the seconds padded with '0' to two digits. |
| Pomodoro.FormattedTime | src/app/home/home.page.ts:150-166 | The text is "00:00" when no phase is active. While work is active, it is the whole minutes of `timeLeft`, a ':', and its seconds padded with '0' to two digits. While only the break is active, it is the same for `breakTimeLeft`. |
| Pomodoro.MinSecRoundTrip | src/app/home/home.page.ts:150-166 | The `m:ss` text of a non-negative counter parses back to its minutes and seconds. |
| Pomodoro.FormattedTimeRoundTrip | src/app/home/home.page.ts:150-166 | Under the invariant, the displayed text parses back to minutes and seconds whose total is the active counter, or 0 when idle. |
| Pomodoro.TextOfFullCounters | src/app/home/home.page.ts:150-166 | A counter of 1500 reads "25:00" and one of 300 reads "5:00". |
| Pomodoro.StartDisplays | src/app/home/home.page.ts:64-81 | Right after a non-paused start the page shows "25:00". Right after the break starts it shows "5:00". |
| Pomodoro.RunWellFormed | src/app/home/home.page.ts:87-95 | Any number of ticks keeps the invariant: the phases are exclusive and both counters stay within bounds. |
| Pomodoro.RunSplit | src/app/home/home.page.ts:87-95 | `a` ticks followed by `b` ticks are `a + b` ticks, for both the state and the completions. |
| Pomodoro.WorkCountdown | src/app/home/home.page.ts:88-89 | While work is active and runs, `k` ticks with `k` at most `timeLeft` take exactly `k` off `timeLeft`, change nothing else, and report nothing. |
| Pomodoro.BreakCountdown | src/app/home/home.page.ts:90-91 | While only the break is active and runs, `k` ticks take exactly `k` off `breakTimeLeft` and report nothing. |
| Pomodoro.StoppedRun | src/app/home/home.page.ts:99-102 | With no interval running, any number of ticks changes nothing. |
| Pomodoro.PauseThenResume | src/app/home/home.page.ts:64-66 | A paused page stays frozen through any number of ticks. `startPomodoro` then resumes it with the same counters and phase. |
| Pomodoro.WorkSession | src/app/home/home.page.ts:64-95 | From a non-paused start, 1500 ticks bring `timeLeft` to 0 with no completion. The 1501st tick reports exactly `PomodoroComplete`. |
| Pomodoro.FullCycle | src/app/home/home.page.ts:64-123 | After the work session and the deferred break start, 301 ticks report exactly `BreakComplete`. The page is then reset: 1500/300, both phases off, not paused. |
| PomodoroVariant.Message | src/app/home/home.page.spec.ts:63 | The message handed to `fireNotification` is "Work session completed!" exactly for the end of work and "Break has ended!" exactly for the end of a break. |
| PomodoroVariant.CompletionNotice | src/app/home/home.page.spec.ts:63 | The message is "Break has ended!" exactly when the page is on a break, and "Work session completed!" exactly when it is not. |
| PomodoroVariant.CountdownText | src/app/home/home.page.spec.ts:79-81 | For a non-negative counter the text is the whole minutes padded with '0' to two digits, a ':', and the seconds padded with '0' to two digits. |
| PomodoroVariant.CountdownTextShape | src/app/home/home.page.spec.ts:78-82 | The text of a non-negative counter is 5 characters long exactly when the counter is below 6000. |
| PomodoroVariant.CountdownRoundTrip | src/app/home/home.page.spec.ts:78-82 | The `MM:SS` text parses back to minutes and seconds whose total `minutes * 60 + seconds` is the counter. |
| PomodoroVariant.FullWorkText | src/app/home/home.page.spec.ts:15 | The literal "25:00" is the rendered text of 1500, and "05:00" is that of 300. |
| PomodoroVariant.SameTextFromTenMinutes | src/app/home/home.page.spec.ts:78-82 | This page and the other page render a counter the same way exactly when it is at least 600. |
| PomodoroVariant.Start | src/app/home/home.page.spec.ts:46-52 | Running and subscribed, not on a break, counting and showing 1500. The invariant holds. |
| PomodoroVariant.HomePage.StartPomodoro | src/app/home/home.page.spec.ts:46-52 | Updates the fields exactly as `Start`, with `countdown` the rendered text of the shown counter. |
| PomodoroVariant.HomePage.RunTimer | src/app/home/home.page.spec.ts:54-57 | Refreshes the display, then takes the subscription. |
| PomodoroVariant.HomePage.UpdateCountdownDisplay | src/app/home/home.page.spec.ts:78-82 | `countdown` becomes the rendered text of `timeLeft`. Nothing else changes. |
| PomodoroVariant.Advance | src/app/home/home.page.spec.ts:57-75 | Without a subscription a tick does nothing. Otherwise `timeLeft` always drops by 1 and is shown. A notice fires exactly when the subscription ends the tick with no time left. The end of work switches to the break at 300, still subscribed, with "Work session completed!". The end of a break cancels the subscription and resets the display, keeping the counter, with "Break has ended!". The invariant is kept. |
| PomodoroVariant.HomePage.Tick | src/app/home/home.page.spec.ts:57-75 | Updates the fields and reports the notice exactly as `Advance`. It keeps the invariant, including that `countdown` is the text of the shown counter. |
| PomodoroVariant.Reset | src/app/home/home.page.spec.ts:105-109 | Shows "25:00", stops running and leaves the break. It keeps `timeLeft` and the subscription, and keeps the invariant. |
| PomodoroVariant.HomePage.ResetTimer | src/app/home/home.page.spec.ts:105-109 | Updates the fields exactly as `Reset`, with `countdown` "25:00", the text of 1500. |
| PomodoroVariant.HomePage.constructor | src/app/home/home.page.spec.ts:14-21 | The field initialisers: "25:00", not running, 1500, not on a break, no subscription. The invariant holds. |
| PomodoroVariant.RunWellFormed | src/app/home/home.page.spec.ts:57-75 | Any number of ticks keeps the counter within 0..1500, and within 300 on a break. A live subscription always has time left. |
| PomodoroVariant.RunSplit | src/app/home/home.page.spec.ts:57-75 | `a` ticks followed by `b` ticks are `a + b` ticks, for both the state and the notices. |
| PomodoroVariant.Countdown | src/app/home/home.page.spec.ts:57-61 | While subscribed, whatever the display shows, `k` ticks with `0 < k` and `k` below the counter take exactly `k` off it, show the new value, and fire nothing. |
| PomodoroVariant.UnsubscribedRun | src/app/home/home.page.spec.ts:57-62 | Without a subscription, any number of ticks changes nothing. |
| PomodoroVariant.StartShows | src/app/home/home.page.spec.ts:46-55 | Right after `startPomodoro` the display reads "25:00". The break starts at "05:00". |
| PomodoroVariant.WorkSession | src/app/home/home.page.spec.ts:46-69 | From `startPomodoro`, exactly 1500 ticks fire one "Work session completed!". The page then counts the break from 300, running and showing it. |
| PomodoroVariant.FullCycle | src/app/home/home.page.spec.ts:46-75 | 300 more ticks fire one "Break has ended!". The page is then at rest: not running, not on a break, unsubscribed, counter 0, showing "25:00". Later ticks change nothing. |
| PomodoroVariant.ResetKeepsCounting | src/app/home/home.page.spec.ts:105-109 | Resetting a counting page cancels no subscription. The next tick still takes one off the counter and shows it, although the page is no longer running. |

## Left out

- Real-time scheduling is left out: `setInterval`, `setTimeout`, `clearInterval`, `interval(1000)` and the subscription object.
  - A live interval or subscription is a boolean field.
  - Each elapsed second is an explicit `Tick`.
  - The 3-second delayed break start is an explicit `BeginBreak`.
- Pomodoro.BreakStart, Pomodoro.WorkSession, Pomodoro.FullCycle, Pomodoro.PauseThenResume, Pomodoro.StoppedRun: interval stacking in `home.page.ts` is not modelled. The model keeps a single "an interval is running" flag, but in the code:
  - `startTimer` never clears an earlier interval, and neither `timerComplete` nor the break start clears the work interval. So the break's `startTimer` adds a second live interval on every cycle.
  - While work sits at 0, every repeated `timerComplete` schedules one more break start. Each of those resets `breakTimeLeft` to 300 and adds yet another interval.
  - `pauseTimer` clears only the latest interval in `timer`. Once two intervals are live, pausing no longer freezes the page.
  - So these lemmas describe a single live interval. The code behaves like that only until the first break starts, or on a page with no interval already running.
- PomodoroVariant.Start, PomodoroVariant.WorkSession, PomodoroVariant.FullCycle: subscription stacking in `home.page.spec.ts` is not modelled. `startPomodoro` takes a new subscription without cancelling a live one, and `resetTimer` cancels nothing. So "reset, then start" in the middle of a session leaves two callbacks, each taking 1 off `timeLeft` every second. The model keeps a single `subscribed` flag. For a page that is already subscribed, the lemmas therefore describe one callback, where the code would end work after 750 seconds.
- Repeated completion during the 3-second delay is not modelled. There, the real interval keeps calling `timerComplete` every second. The model leaves the timing of `BeginBreak` to its caller.
- Platform calls are not modelled: `LocalNotifications.schedule`, `requestPermissions`, `Haptics.vibrate` and `navigator.vibrate`. Neither are notification ids taken from `Date`. The model only reports which completion or message a tick chose. The awaiting of `notify` before the state changes in `timerComplete` is not modelled either.
- Pomodoro.Complete: assumes that `notify` succeeds. If `LocalNotifications.schedule` rejects, the `await` at home.page.ts:114 or :119 throws before `startBreak()` or `resetTimer()` runs. The page then stays at 0 with its phase flag set, and the interval retries `timerComplete` every second. The model always applies the state change.
- The wall clock (`updateCurrentTime`, `updateClock`, `toLocaleTimeString`) and the back-button handler that exits the app are not modelled.
- src/app/app.module.ts is not part of this model: it only wires Angular modules together.
- Text.NatText, Text.IntText: a TypeScript `number` is a double, and its `toString` switches to exponent notation (such as `1e+21`) from 10^21 on. The model renders Dafny's unbounded `int` in plain digits. The counters only ever hold small integers (0 to 1500), where the two agree.
- Pomodoro.ProgressPercentage: computed over exact reals, not IEEE doubles. So it does not model floating-point rounding of `timeLeft / 1500 * 100`.
- PomodoroVariant.Advance: the specification records the counter that `countdown` shows (`shown`) rather than the string. The class keeps the string itself, and `HomePage.Valid` ties it to `CountdownText(shown)`.
- Pomodoro.MinSecRoundTrip, PomodoroVariant.CountdownRoundTrip: proved for non-negative counters only. The invariants keep every counter non-negative, and the formatters are still defined for negative ones.
