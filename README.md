# count-app arithmetic drill, modelled in Dafny

This project models the arithmetic drill widget in `dist/app.js`. The page shows a
problem `a+b` whose operands are digits, twenty answer buttons `0` to `19`, a score
footer and a language toggle between Russian (`ру`, written in Cyrillic) and English
(`en`). The widget's behaviour is a small state machine over one state record with
seven fields: `a`, `b`, `op`, `correct`, `disabledAnswers`, `language` and
`rightAnswer`. Three actions change that record:

- **nextQuestion** draws two new operands. It clears the disabled answers and the shown right answer.
- **answer** handles a click. A right answer adds one to the score, shows the answer and
  schedules the next question 2000 ms later. A wrong answer disables its button.
- **language** switches the language and writes it to browser storage.

The view is a pure function of the state.

Files:

- `wrappers.dfy`: `Option`, which stands for JavaScript's `null` or a value.
- `decimal.dfy` (module `Decimal`): how JavaScript prints an integer (`String(k)`, `${n}`).
  It also defines a reader that inverts the printing, proved in both directions.
- `drill.dfy` (module `Drill`): the state record and the actions as pure functions.
  It also holds the invariant `Inv` and the event traces (clicks, timer firings, toggles),
  with lemmas about every reachable state.
- `view.dfy` (module `DrillView`): the view as a function to an abstract `Screen`,
  together with `heroMessage` and `correctAnswers`.
- `app.dfy` (module `DrillApp`): the app as a class whose fields the actions update in place.
  Each method is proved against the matching `Drill` function and keeps `Inv`.

The model follows the code as written. The code differs from the repository's browser
tests in several places:

- A second click on the still-enabled right button scores again. Each click also schedules
  another advance. `Drill.RepeatedCredit` proves that n clicks score n.
- The page renders 20 buttons (0 to 19), not 41.
- The score always starts at 0. It is never read from storage or written to it.
- The only operator is `+`. There is no `getState` and no `setNextQuestion` (fixture
  injection), and no solved flag that blocks further answers.
- The initial state shows `0+0` until the first advance. Nothing calls nextQuestion at start-up.
- `language` holds whatever non-empty string storage returned. `switchLanguage` maps `ру` to `en`
  and every other string to `ру`.

## Model

| member | source | states |
|---|---|---|
| `Decimal.NatString` | dist/app.js:64 | The printed numeral of a non-negative integer is canonical: digits only, and no leading zero except for 0 itself |
| `Decimal.ParseShow` | dist/app.js:64 | Every integer's printed form reads back as that integer |
| `Decimal.ShowParse` | dist/app.js:64 | Every string the reader accepts is exactly the printed form of the value it reads |
| `Decimal.ShowInjective` | dist/app.js:40 | Distinct integers print distinctly, so the answers disabled under the keys `String(answer)` form a set of integers |
| `Drill.InitialLanguage` | dist/app.js:11 | The starting language is the stored value when it is a non-empty string, otherwise `ру`; it is never empty |
| `Drill.Initial` | dist/app.js:5-13 | The initial state satisfies `Inv`, with operands 0 and 0, operator `+`, score 0, no disabled answers, no shown right answer and the stored-or-default language |
| `Drill.SwitchLanguage` | dist/app.js:15-16 | The result is always `ру` or `en` and always differs from the input; it is `en` exactly when the input is `ру` |
| `Drill.SwitchLanguageInvolution` | dist/app.js:15-16 | Switching twice gives back the input exactly when the input is `ру` or `en` |
| `Drill.NextQuestion` | dist/app.js:21-29 | The new operands are the draws, the disabled set is empty and no right answer is shown; score, operator and language are kept, and `Inv` is established |
| `Drill.Answer` | dist/app.js:30-43 | A right answer raises the score by exactly 1, shows that answer and asks for an advance after 2000 ms, leaving the disabled set unchanged; a wrong answer adds exactly itself to the disabled set and changes nothing else; operands, operator and language never change; `Inv` is preserved |
| `Drill.ToggleLanguage` | dist/app.js:44-48 | Only the language changes, and it becomes the switched language; `Inv` is preserved |
| `Drill.WrongAnswerIdempotent` | dist/app.js:39-42 | Recording the same wrong answer twice yields the same state and effect as recording it once |
| `Drill.RunPreservesInv` | dist/app.js:23-49 | Any sequence of clicks, timer firings with digit draws, and toggles keeps `Inv`, so the right answer is never disabled |
| `Drill.RunNeverLowersScore` | dist/app.js:23-49 | No sequence of events lowers the score or changes the operator |
| `Drill.ReachableStates` | dist/app.js:5-13 | Every state reachable from the initial one satisfies `Inv` and has a non-negative score |
| `Drill.ClicksOnOneProblem` | dist/app.js:30-43 | During clicks on one problem, the score rises by the number of clicks on the sum. The disabled set grows by exactly the other clicked values, in any order and with repeats. Problem, operator and language are kept |
| `Drill.RepeatedCredit` | dist/app.js:31-35 | Clicking the right answer n times before the advance fires raises the score by n |
| `DrillView.HeroMessage` | dist/app.js:18-19 | The title is `счет` exactly for `ру` and `count` exactly for every other language value |
| `DrillView.CorrectAnswers` | dist/app.js:51-52 | The footer is `правильно ` for `ру`, `correct ` otherwise, followed by text that reads back as the score |
| `Decimal.Show` | dist/app.js:64 | `String(i)` of an integer is non-empty and starts with a minus sign exactly when `i` is negative; `Decimal.ParseShow` reads it back as `i` |
| `DrillView.View` | dist/app.js:54-85 | Exactly 20 buttons, button k disabled iff k is a disabled answer, and the `problem right` class and second span exactly when a right answer is shown; the full contents are stated by `DrillView.ViewButtons` and `DrillView.ViewProblem` |
| `DrillView.ViewButtons` | dist/app.js:56-65 | Exactly 20 buttons; button k's caption reads back as k; button k is disabled iff k is a disabled answer, and otherwise it submits k |
| `DrillView.ViewProblem` | dist/app.js:67-83 | The class is `problem right` and the ` = answer` span (reading back as the answer) appears iff a right answer is shown; the problem text is `a`, op, `b` without spaces; title, footer and toggle follow the state |
| `DrillView.RightAnswerClickable` | dist/app.js:56-65 | In every state satisfying `Inv`, the sum is below 20 and its button is enabled and submits the sum |
| `DrillView.FirstWrongGuess` | dist/app.js:39-65 | A first wrong guess on a button leaves exactly that one button disabled and the footer unchanged |
| `DrillView.InitialScreen` | dist/app.js:67-79 | A freshly loaded page shows `0+0` in class `problem` with no disabled button for every stored language, and footer `правильно 0` when nothing is stored |
| `DrillApp.App.constructor` | dist/app.js:5-13 | The mounted app's fields equal `Drill.Initial`, and storage holds what was read for the language key |
| `DrillApp.App.NextQuestion` | dist/app.js:24-29 | The fields become `Drill.NextQuestion` of the old fields, `Inv` is kept and storage is untouched |
| `DrillApp.App.Answer` | dist/app.js:30-43 | The fields and the returned effect are `Drill.Answer` of the old fields; the score never drops, `Inv` is kept and storage is untouched |
| `DrillApp.App.ToggleLanguage` | dist/app.js:44-48 | The language switches, the rest of the state is unchanged, and storage's language key holds the same new value |

`DrillView.AnswerButton` (dist/app.js:57-65), `DrillView.ProblemSpans` (dist/app.js:67-73) and
`DrillView.ScoreLabel` (dist/app.js:52) are helpers of `DrillView.View` and `DrillView.CorrectAnswers`;
their behaviour is stated by the rows above. The trace event `Click` accepts any integer, including
disabled and unrendered values, so the trace lemmas cover more than the page allows.

## Left out

- `Math.random` (dist/app.js:21), a floating-point generator, becomes the two draws passed to nextQuestion. Each draw must be a digit (0 to 9).
- The `setTimeout` call (dist/app.js:32) becomes the returned effect `AdvanceAfter(2000)`. In a trace, a timer firing is an event that may occur at any point. Timing, and the order in which several pending timers fire, are not modelled.
- `localStorage` (dist/app.js:11, 46) is I/O. The value read at start is a constructor parameter, and the writes go to a ghost map.
- The hyperapp runtime, the `window.html` element constructors, `console.log` and mounting (dist/app.js:2-3, 55, 87) are foreign code. The view is reduced to the data it renders. A button's click handler is reduced to the answer it submits.
- The implicit global `language` assignment (dist/app.js:45) has no effect on the app's state or storage.
- app.js mutates `disabledAnswers` in place (dist/app.js:39-40), so an earlier state object shares the change. The model's states are values, so this aliasing is not captured. The app class does reassign its field.
- app.js keys `disabledAnswers` by `String(answer)`. The model keeps a set of integers, which `Decimal.ShowInjective` justifies. Answers that are not integers cannot occur from the rendered buttons and are not modelled.
- Drill.Answer: the score is a JavaScript number, and `correct + 1` (dist/app.js:34) is exact only below 2^53; above that it rounds back and the score stops rising. The model's score is an unbounded integer, so "raises the score by exactly 1" holds in app.js only below 2^53.
- Drill.RepeatedCredit: for the same reason, n right clicks score n in app.js only while the score stays below 2^53.
- JavaScript number printing is modelled for integers only. Exponent notation for magnitudes of 10^21 and above, and floating-point rounding, are left out.
- The browser test suite (cypress/integration/spec.js) is not modelled. Where its expectations differ from the code, the model follows the code, as listed above.
