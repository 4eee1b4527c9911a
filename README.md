# FocusFlow session engine, plan sanitiser and summary totals in Dafny

FocusFlow turns a task and a time budget into a plan of timed work blocks, runs the plan
under a countdown and asks for a reflection at the end. This project models three parts of it
and proves properties of the model:

- **The plan page's session engine** (`frontend/app/plan/page.tsx`). The page state is the class
  `PlanPage.PageState`, with one field per piece of component state the handlers write:
  the form fields, the current plan (`result`), the four timer fields, and the reflection
  draft and record. Each handler is a method: `Start`, `Tick`, `Settle`, `EndEarly`,
  `LoadPlanById`, `GeneratePlan`, `ClearAll`, `SelectMood`, `SetNotes` and `SubmitReflection`.
  `BeginPlanRequest` is the part of "Generate plan" before its request, and `ResetSession` the
  resets that loading a plan and "Clear" share.
  A handler that makes a request takes its outcome as a parameter (`Result`), the reply or an
  error message. The timer's behaviour is specified by pure functions in `SessionTimer`:
  - `Settled` is the zero-check effect;
  - `StartTimer` is the start button followed by the zero-check;
  - `TickStep` is one second of the interval followed by the zero-check.

  The methods are proved to change the timer fields exactly as those functions say. The
  lemmas about the functions carry the schedule, the termination and the progress properties.
  `SessionViews` holds the two derived views: the progress percentage and the `MM:SS`
  countdown text.
- **The plan sanitiser and the fallback plan** (`backend/services/plan_generator.py`).
  `BuildMockPlan` is the four-block fallback plan. `PlanDict.ValidateAndFix` rewrites a
  generated plan's dictionary in place. `Fixed` is its value-level specification, and the
  lemmas about `Fixed` say what the sanitiser guarantees.
- **The summary totals** (`backend/main.py`, `ai_summary`). `AiSummary` takes the stored plans
  and the language model's parsed reply as inputs. It returns the reply the endpoint
  sends and the history text the model would be shown; for an empty history there is no text,
  because no model call is made.

The zero-check runs as a loop until it has nothing left to do. React re-runs the effect
whenever `currentBlockIndex` changes, so a run that advances onto a block of zero minutes
advances again at once. `Settle` runs after `Start` and after every decrement.

## Model

| member | source | states |
|---|---|---|
| `SessionTimer.Settled` | frontend/app/plan/page.tsx:310-323 | the zero-check leaves a non-running timer, or one with time left, as it is; otherwise it only moves the index forward; it ends a session only in the last block, with the countdown at or below zero; a running session is left in range, not ended, with time left; with non-negative block minutes the countdown stays non-negative |
| `SessionTimer.StartTimer` | frontend/app/plan/page.tsx:508-517 | starting a non-empty plan gives a running, settled timer that does not depend on the previous one; when the first block has minutes, it is index 0, not ended, at `minutes * 60` seconds |
| `SessionTimer.TickStep` | frontend/app/plan/page.tsx:299-323 | a tick changes nothing unless a session runs with seconds left; above one second it only decrements by exactly 1; the index never decreases; no tick starts a session; in-range and non-negative countdowns are preserved |
| `SessionTimer.Run` | frontend/app/plan/page.tsx:299-323 | after any number of ticks a running session's index is still inside the plan |
| `SessionTimer.SettleOnSchedule` | frontend/app/plan/page.tsx:310-323 | a zero-check on a timer that is on schedule keeps it on schedule, or ends it in the last block at 0 seconds once the whole plan has elapsed |
| `SessionTimer.Schedule` | frontend/app/plan/page.tsx:299-323 | from Start, after k ticks with k below the plan's total seconds (sum of minutes * 60), the session runs in the block whose time span holds second k, with the rest of that span on the countdown; after exactly the total it has ended naturally in block len-1 at 0 seconds, which means exactly len-1 advances |
| `SessionTimer.RunAfterEnd` | frontend/app/plan/page.tsx:299-308 | once the session has ended naturally, further ticks change nothing |
| `SessionTimer.TwoBlockScenario` | frontend/app/plan/page.tsx:508-517 | for blocks of 25 and 5 minutes, Start gives index 0 at 1500 s; 1500 ticks later it is index 1 at 300 s; 300 ticks after that it has ended in block 1 at 0 s |
| `SessionViews.Progress` | frontend/app/plan/page.tsx:326-327 | 0 without blocks; otherwise the integer nearest to 100 * index / len, halves rounded up (the bracketing inequality); within 0..100 for an index in 0..len |
| `SessionViews.ProgressMonotone` | frontend/app/plan/page.tsx:326-327 | progress never decreases as the index grows |
| `SessionViews.ProgressNeverDecreasesOnTick` | frontend/app/plan/page.tsx:299-327 | a tick never lowers the progress |
| `SessionViews.ProgressAtLastBlock` | frontend/app/plan/page.tsx:314-327 | in the last block, where a natural end leaves the index, progress is 100 exactly when the plan has at least 200 blocks |
| `SessionViews.PadStart2` | frontend/app/plan/page.tsx:636-640 | `padStart(2, "0")`: length max(2, len), the input at the end, zeros before it |
| `SessionViews.JsRemainder` | frontend/app/plan/page.tsx:640 | JavaScript `%` by a positive divisor: the Euclidean remainder for a non-negative dividend; for a negative one, a value in (-divisor, 0] |
| `SessionViews.JsRemainderValue` | frontend/app/plan/page.tsx:640 | the remainder is the dividend less the divisor times the quotient truncated toward zero, which with the range of `JsRemainder` is exactly ECMAScript's `%` |
| `SessionViews.SecondsField` | frontend/app/plan/page.tsx:640 | a seconds value below 60 is shown as exactly two digits, the first in 0..5, and reads back as the value |
| `SessionViews.FormatTimeFields` | frontend/app/plan/page.tsx:636-640 | for a non-negative countdown the text is minutes, a colon and exactly two digits 00-59; the minutes read back as `seconds div 60` and the seconds as `seconds mod 60`, and 60 * MM + SS is the countdown |
| `SessionViews.FormatTime` | frontend/app/plan/page.tsx:636-640 | the `MM:SS` text of a non-negative countdown reads back as the countdown |
| `SessionViews.FormatTimeInjective` | frontend/app/plan/page.tsx:636-640 | different non-negative countdowns give different texts |
| `PlanPage.PageState.constructor` | frontend/app/plan/page.tsx:77-104 | the initial state: empty task, 60 minutes, study, normal, no plan, no error, timer idle at index 0 and 0 s, no mood, notes or reflection |
| `PlanPage.PageState.SessionPanelShown` | frontend/app/plan/page.tsx:602 | the session panel shows only for a running session on a non-empty plan, and then, under the page invariant, its block index is inside the plan |
| `PlanPage.PageState.ReflectionFormShown` | frontend/app/plan/page.tsx:664 | the reflection form shows only with a plan and no saved reflection, and under the page invariant never beside the running session's panel |
| `PlanPage.PageState.CurrentBlock` | frontend/app/plan/page.tsx:626-633 | the index the session panel reads is inside the plan, and the block shown is the plan's block at that index |
| `PlanPage.PageState.ProgressShown` | frontend/app/plan/page.tsx:602-627 | the progress shown in the session panel lies in 0..100 and is 0 at the first block |
| `PlanPage.PageState.CountdownText` | frontend/app/plan/page.tsx:635-641 | the countdown shown in the session panel reads back as the seconds left |
| `PlanPage.PageState.Settle` | frontend/app/plan/page.tsx:310-323 | the zero-check loop changes the timer fields exactly as `Settled` says, and establishes the page invariant (a running session has a plan, an in-range index, is not ended and has time left) |
| `PlanPage.PageState.Start` | frontend/app/plan/page.tsx:508-517 | without blocks nothing changes; otherwise the timer becomes `StartTimer` of the plan, even when a session was already running, and the reflection, mood, notes and reflection error are cleared; when the first block has minutes, index 0 at minutes * 60 s with progress 0 |
| `PlanPage.PageState.Tick` | frontend/app/plan/page.tsx:299-323 | the timer fields change exactly as `TickStep` says; the invariant is kept; the index never decreases in a running session |
| `PlanPage.PageState.EndEarly` | frontend/app/plan/page.tsx:644-647 | the session stops and is marked ended; only those two fields change, so the index and countdown stay as they were |
| `PlanPage.PageState.LoadPlanById` | frontend/app/plan/page.tsx:181-210 | on a reply the plan becomes current, the form takes the plan's task, minutes, mode and intensity, the session resets to idle at index 0 and 0 s, the reflection and its draft are cleared, and the error is left as it was; on a failure only the error changes, to "Failed to load plan" |
| `PlanPage.PageState.BeginPlanRequest` | frontend/app/plan/page.tsx:138-146 | before the request: no error, no plan, no session flags, no reflection, mood, notes or reflection error; the index, countdown and form are untouched |
| `PlanPage.PageState.GeneratePlan` | frontend/app/plan/page.tsx:135-179 | the plan, error, session flags and reflection are cleared before the request; the index and countdown are not reset; on a reply the plan becomes current and the form takes its values, keeping its own mode and intensity where the reply has none; on a failure no plan remains and the error is the failure's message |
| `PlanPage.PageState.ResetSession` | frontend/app/plan/page.tsx:198-205 | timer idle at index 0 and 0 s, and no reflection, mood, notes or reflection error; nothing else changes and the page invariant holds |
| `PlanPage.PageState.ClearAll` | frontend/app/plan/page.tsx:266-280 | no plan, no error, timer idle at index 0 and 0 s, no reflection, mood, notes or reflection error; the form is kept |
| `PlanPage.PageState.SelectMood` | frontend/app/plan/page.tsx:670-674 | the chosen mood becomes the draft's mood |
| `PlanPage.PageState.SetNotes` | frontend/app/plan/page.tsx:692-694 | the typed notes become the draft's notes |
| `PlanPage.PageState.SubmitReflection` | frontend/app/plan/page.tsx:212-242 | without a plan or a mood nothing is sent and nothing changes; otherwise the request carries the plan id, mood and notes, and a request is always made when the save button is enabled (page.tsx:714); a reply becomes the reflection and clears the error, which closes the form (shown only when ended with no reflection, page.tsx:664), so saving is one-shot; a failure leaves the reflection and sets only the reflection error |
| `PlanGenerator.BuildMockPlan` | backend/services/plan_generator.py:6-43 | exactly four blocks: Warm up (easy), Deep work block (hard), Quick break (easy), Review (medium); warm-up and break 5, deep work max(20, total - 15), review always 5; every block at least 5 minutes; the blocks sum to max(total, 35); task and total echoed |
| `PlanGenerator.ClampMinutes` | backend/services/plan_generator.py:61-63 | the clamped minutes are at least 1; positive values are kept; missing, None or non-positive values become 1 |
| `PlanGenerator.ClampItem` | backend/services/plan_generator.py:60-63 | a clamped block has its clamped minutes; title, details and difficulty are kept; a block with positive minutes is untouched |
| `PlanGenerator.PlanDict.ValidateAndFix` | backend/services/plan_generator.py:46-81 | a plan without blocks is left entirely unchanged, its total too; otherwise the blocks become `Fixed` of the old blocks and the total becomes the argument |
| `PlanGenerator.FixedKeepsBlocks` | backend/services/plan_generator.py:59-80 | the sanitiser keeps the block count, order, titles, details and difficulties, and every block ends with minutes present and at least 1 |
| `PlanGenerator.FixedOnlyLastRepaired` | backend/services/plan_generator.py:66-77 | every block but the last keeps its clamped value, so a positive value is untouched |
| `PlanGenerator.FixedTotal` | backend/services/plan_generator.py:65-77 | a mismatch of at most 3 minutes is left alone; a larger one sets the last block to max(1, last + diff) and makes the blocks sum to the total exactly, unless max(1, last + diff) clamps, in which case the last block is 1 and the sum stays above the total |
| `Summary.AiSummary` | backend/main.py:102-160 | no plans: sessions 0, minutes 0, no top tasks, themes ["No data yet"], one suggestion, and no model call; otherwise the session count is the number of plans and the minutes are the loop's sum of the plans' totals, whatever the model said; top tasks, themes and suggestions pass through from the model's reply; the history text is the plans' lines joined by "\n" |
| `Summary.HistoryLine` | backend/main.py:119-121 | a plan's line starts with "- " and its task and ends with ")" |
| `Summary.HistoryLines` | backend/main.py:115-121 | one history line per plan |
| `Summary.Join` | backend/main.py:123 | the joined text starts with the first line, and when no line holds the separator it holds exactly one separator fewer than there are lines |
| `Summary.HistoryLineIsOneLine` | backend/main.py:119-121 | a history line holds no line break unless its task or energy level does |
| `Summary.HistoryTextLines` | backend/main.py:115-123 | if no task or energy level holds a line break, splitting the history text at "\n" gives exactly the plans' lines, one per plan, in list order |

## Behaviour as the code has it

These points may be surprising, but they are what the code does, and the model follows it:

- "Start session" while a session runs restarts the plan from its first block.
- A plan with no blocks is accepted by a load. It simply cannot be started.
- "Generate plan" clears the current plan before its request, so a failed generation leaves no
  plan at all. It does not reset the block index or the countdown. Nothing observable follows
  from that: both are shown only while a session runs, and Start sets them.
- The backend's plan record has no mode or intensity. A history load copies the missing values
  into the form (`mode`/`intensity` become absent), while a generation keeps the form's own.
- A natural end leaves the index at the last block, so the progress shown is
  round(100 * (len - 1) / len). That is 100 only for plans of 200 blocks or more.
- Block minutes are whatever number the backend sent. A negative value makes the countdown
  negative, and the zero-check treats it like zero. The non-negativity of the countdown is
  therefore proved only for plans whose blocks have non-negative minutes. That holds for every
  plan the backend's sanitiser or fallback produces.
- Only the page's own guard on submitting a reflection is modelled. The page posts to
  `/ai/reflection` with the moods great/ok/tired. The backend defines only `/ai/reflect`,
  with a different body and the moods good/okay/bad.

## Left out

- Network requests: every `fetch` is replaced by its outcome, passed as a parameter. HTTP status and error texts are not modelled, nor is the history reload after a generation (`fetchHistory`), the history list, or the page's summary request (`generateSummary`).
- Loading flags (`loading`, `historyLoading`, `reflectionLoading`, `summaryLoading`): each is true only while a request is in flight, and the model treats every handler as one atomic step. So the save button's `reflectionLoading` condition is not modelled.
- Timer scheduling: `setInterval`/`clearInterval`, the effect re-runs, and the cancellation of stale ticks from an earlier session. A tick is a method called from outside, and only while a session runs with time left, which is when the page keeps an interval.
- `Math.round` on a floating-point ratio is modelled as exact rational rounding, done in integers. Floating-point error in `index / len * 100` is not modelled.
- Rendering: styles, the raw-JSON debug toggle (`showRaw`), `copyPlan` (clipboard and `alert`), `toLocaleString` dates, `console.error`, and the generate button's `task.trim()` enablement.
- Start with no plan at all: the start button is rendered only with a plan, so the source never reaches this case. The model treats it as changing nothing.
- JavaScript number-to-string conversion of non-integers and of exponent-notation magnitudes: the countdown is an integer number of seconds.
- The language-model calls (`ai_generate_plan`, `ai_reflect`, the model call in `ai_summary`) are nondeterministic foreign calls. The summary's prompt text around the history text is not modelled.
- `generate_plan`'s exception fallback: it depends on exceptions raised by those calls.
- Persistence (`backend/services/plan_store.py`, `backend/services/db.py`): SQL and clock-based identifiers. `list_plans` and its `limit` are replaced by the list of plans passed in.
- `validate_and_fix_plan` also accepts dictionaries of any shape. The model covers blocks whose "minutes" entry is an integer, None or missing, and treats a missing "plan" entry like an empty one; the code behaves the same for both. The log `print` is not modelled.
- SessionTimer.Schedule: stated only for plans whose blocks have non-negative minutes, because with negative minutes the countdown and the elapsed-time schedule no longer correspond.
- SessionTimer.SettleOnSchedule: stated only for plans whose blocks have non-negative minutes, for the same reason.
