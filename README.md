# Najma Al Khautar landing page — state model

The repository is a single-page marketing site for an agricultural export
business. Its only behaviour beyond markup lives in `src/App.jsx`, and this
project models that behaviour in Dafny:

- **Counter** (`counter.dfy`, module `Counter`): the animated statistic
  counter. On mount it starts a periodic timer, but only for a positive
  target `end`. The timer period is `max(10, floor(1400 / end))` ms. Each tick
  adds one to the displayed value, and the timer is cleared once the value
  reaches `end`. The number is shown with a trailing `+` when `end >= 100`.
  Time is replaced by discrete tick events. `Run(end, n)` is the pure
  specification of the state after `n` ticks. The class `CounterView` is the
  mounted component, and its `Tick` keeps it equal to `Run(end, ticks)`.
- **App** (`app.dfy`, module `App`): the page component's state.
  - `quoteOpen` / `quoteProduct` belong to the quote dialog. Opening it with
    a missing or empty title falls back to `"General Inquiry"`. Closing it
    resets both fields.
  - `newsletterMsg` holds the newsletter status line. The outcome of the POST
    (a response with its status code, or a network failure) picks one of
    three messages. A later timer event blanks the line.
  - `Apply`/`Replay` give the pure event semantics. The class `Page` holds the
    three fields, and its handlers are proved against `Apply`.

The code names a 1400 ms animation duration (`const duration = 1400; // ms`,
src/App.jsx:48). Because the period is clamped at 10 ms (src/App.jsx:49),
the animation lasts `10 * end` ms for every `end >= 128`, and longer than
1400 ms for every `end > 140`. For the page's 30000 counter that is 300 s.
`TotalDurationBounds` states this.

## Model

| member | source | states |
|---|---|---|
| Counter.StepTime | src/App.jsx:48-49 | the tick period for a positive target is between 10 and 1400 ms, and it sits at the 10 ms floor exactly when `end >= 128` |
| Counter.TotalDurationBounds | src/App.jsx:48-49 | below 128 the whole animation takes more than `1400 - end` ms and at most 1400 ms; from 128 on it takes `10 * end` ms; it fits in 1400 ms exactly when `end <= 140` |
| Counter.DecimalRoundTrip | src/App.jsx:60 | the rendered value is canonical decimal: non-empty, digits only, no leading zero, and it parses back to the value |
| Counter.DecimalInjective | src/App.jsx:60 | different values render as different texts |
| Counter.Display | src/App.jsx:60 | the rendered counter text: never blank, at most one character longer than the number, and ending in `+` if and only if `end >= 100` |
| Counter.DisplaySuffix | src/App.jsx:60 | the counter text is exactly `DecimalString(value)`, whose digits read back as the value, followed by one `+` when `end >= 100` and nothing otherwise |
| Counter.PageCounters | src/App.jsx:243-245 | the final texts of the page's counters are `"10"`, `"30000+"` and `"15"` |
| Counter.Mount | src/App.jsx:44-47 | on mount `start` is 0 and a timer runs if and only if `end > 0`, and then `start` is below `end` |
| Counter.Step | src/App.jsx:50-53 | the interval callback: a live timer adds exactly one to `start` and stays live exactly while `start < end`; a cleared timer changes nothing |
| Counter.Run | src/App.jsx:44-54 | the state after `n` tick events: `start` is at most `n`, and a live timer has counted every tick and not yet reached `end` |
| Counter.RunClosedForm | src/App.jsx:44-55 | after `n` ticks the value is 0 and no timer runs when `end <= 0`; otherwise the value is `min(n, end)` and the timer is live exactly while `n < end` |
| Counter.TickAddsOne | src/App.jsx:50-53 | each tick adds exactly one while fewer than `end` ticks have happened, and nothing afterwards |
| Counter.RunMonotone | src/App.jsx:50-53 | the displayed value never decreases over ticks |
| Counter.NonPositiveStaysZero | src/App.jsx:44-47 | with `end <= 0` no timer starts and the value stays 0 forever |
| Counter.ReachesEndAfterExactlyEnd | src/App.jsx:50-55 | for `end >= 1` the value never exceeds `end`, equals `end` exactly from tick `end` on, and further ticks change nothing |
| Counter.FinalText | src/App.jsx:53-60 | once `end` ticks have passed the counter text is the rendering of `end` itself |
| Counter.CounterView.constructor | src/App.jsx:44-50 | mounting shows 0 and starts a timer only for a positive target |
| Counter.CounterView.Period | src/App.jsx:48-50 | the live timer's period is between 10 and 1400 ms |
| Counter.CounterView.Text | src/App.jsx:60 | the shown text is `"0"` for a target that never starts, and the target's own text once `end` ticks have passed |
| Counter.CounterView.Tick | src/App.jsx:50-54 | a tick adds one to `start` and `value` while the timer is live and clears the timer once `start >= end`; it keeps `value <= end` for a positive target and `value == 0` otherwise, and matches `Run(end, ticks)` |
| App.ChosenTitle | src/App.jsx:85 | the dialog title is the requested title when it is present and non-empty, `"General Inquiry"` otherwise, and it is never empty |
| App.Message | src/App.jsx:100-103 | an ok (2xx) response gives the success line, any other response the failure line, a thrown fetch the network-error line; none is blank |
| App.MessagesDistinct | src/App.jsx:100-103 | two outcomes give the same message exactly when they are of the same kind (ok, not ok, network failure) |
| App.Apply | src/App.jsx:84-105 | one event: opening sets the dialog open with the chosen non-empty title, closing sets it closed with an empty product, a settled POST sets the outcome's non-blank message, the clear blanks it; dialog events leave the status line alone and newsletter events leave the dialog alone |
| App.ApplyKeepsInv | src/App.jsx:84-105 | every event keeps the invariant: the dialog is open exactly when its product is non-empty, and the status line is blank or one of the three messages |
| App.ReplayKeepsInv | src/App.jsx:68-105 | every sequence of events keeps that invariant, so from page load on the product is non-empty whenever the dialog is open |
| App.Initial | src/App.jsx:68-70 | the page-load state is closed, with no product and no message, and satisfies the invariant |
| App.CloseIdempotent | src/App.jsx:88-91 | closing yields a closed dialog with an empty product from any state, and closing twice equals closing once |
| App.SettleThenClear | src/App.jsx:100-105 | a settled submission followed by its clearing timer leaves a blank status line and nothing else changed |
| App.Page.constructor | src/App.jsx:68-70 | page load: dialog closed, product empty, status line blank |
| App.Page.OpenQuote | src/App.jsx:84-87 | opens the dialog with the chosen, non-empty title and changes only the dialog fields |
| App.Page.CloseQuote | src/App.jsx:88-91 | closes the dialog and empties the product, changing only the dialog fields |
| App.Page.Resolve | src/App.jsx:98-104 | sets the status line to the outcome's message and changes nothing else |
| App.Page.Clear | src/App.jsx:105 | blanks the status line and changes nothing else |

## Left out

- Wall-clock timing: `setInterval` and `setTimeout` become discrete tick and clear events. Each `Tick` is one timer firing. `Clear` is the 4000 ms timeout.
- Cancelling the counter's timer on unmount (src/App.jsx:55) is not modelled. Concurrency and component lifetime are outside the model.
- A change of `end` on a mounted counter is not modelled. The effect would re-run with `start` back at 0 while `value` keeps its old number. The page passes constant targets.
- `start` is a JavaScript double. Above 2^53, `start += 1` (src/App.jsx:51) no longer changes it, so a target above 2^53 is never reached and its timer is never cleared. The model counts with unbounded integers, so `RunClosedForm`, `ReachesEndAfterExactlyEnd`, `FinalText` and `CounterView.Tick` match the source only for targets up to 2^53. The page's targets are 10, 30000 and 15.
- The `Number.isFinite` guard (src/App.jsx:47) is not modelled. `end` is an integer here, so NaN, Infinity and fractional targets do not arise.
- The `fetch` call to the form endpoint (src/App.jsx:99) is not modelled. Its result is the `Outcome` parameter of `Resolve`.
- `form.reset()` (src/App.jsx:106) and the quote form's native POST (src/App.jsx:314-322) are browser behaviour and are not modelled.
- The event model lets a clear event happen at any time. In the page, a clear follows some earlier settled submission. The model is a superset, so the invariants hold for the page.
- The SEO title and meta effect (src/App.jsx:72-82) is a DOM side effect and is not modelled. The mailto link's `encodeURIComponent` (src/App.jsx:37) is a library call and is not modelled either.
- JSX markup, styling and the slider keyframes (src/App.jsx:109-333) are presentation only.
- src/index.js (React bootstrapping) and the static placeholder components under najma-alkhautar/src are not modelled. They contain no logic.
- App.ChosenTitle: the JavaScript `||` also replaces other falsy values (`0`, `false`, `null`). The model's title is an optional string, and every caller in the page passes a string.
