# Goal timer list — a Dafny model

A model of the logic under the UI of a small React Native goal tracker. The
App screen keeps a list of goals. Each goal has an id, an activity name, a
target, a count of seconds spent and two formatted dates. A goal is created
from two text inputs, the activity and the target. Under each goal a timer
component has a start/pause button. While the timer runs, a one-second
interval adds one second to its count, and every new count is reported back
to the list.

- `numeric.dfy` (module `Numeric`) holds the test "is the target text a
  number" and its parse, modelled on decimal-digit strings. Beside them is
  a model of what `isNaN` and `parseInt` do on texts of digits and
  whitespace.
- `app.dfy` (module `App`) holds the `Goal` record and the validation of a
  new goal. `WithTimeSpent` is the list update behind `updateGoalTime`.
  The class `Screen` holds the screen state: `goals`, the `activity` and
  `targetTime` inputs and the two dates. Its `AddGoal` and `UpdateGoalTime`
  are specified through those functions.
- `goal_timer.dfy` (module `GoalTimer`) holds the hours/minutes display and
  a value model of the timer: states, events and traces. The class `Timer`
  holds the timer state. Its `Tick` reports to its parent `Screen`, and
  `Synced()` states that the parent's list holds the goal and that its
  record carries the timer's count. Each timer method is tied to one `Step` of the value model.

The generated id and the date the pickers are reset to are method
parameters. Dates are opaque strings.

The code has no completion detection, auto-pause, deletion or persistence.
A target of `"0"` is accepted, because `isNaN("0")` is false. The parsed
target, labelled in hours, is never compared with the seconds counted.

## Model

| member | source | states |
|---|---|---|
| `Numeric.IsNumeric` | App.js:19 | a text is numeric iff it is non-empty and its run of leading digits covers all of it |
| `Numeric.ParseDecimal` | App.js:27 | the decimal value of a k-digit text is below 10^k |
| `Numeric.IsNaNAsWritten` | App.js:19 | on a text of digits and whitespace, `isNaN` is false iff the text between the surrounding whitespace is all digits; then, if the text is not blank, `parseInt` reads exactly that number |
| `Numeric.ParseIntAsWritten` | App.js:27 | on a text of digits and whitespace, `parseInt` gives NaN iff the text is blank |
| `Numeric.ParseShow` | App.js:27 | the decimal parse of a numeric target is onto: every natural number is the parse of some numeric text (its rendering), so parsing loses no value |
| `Numeric.ParseLeadingZero` | App.js:27 | like parseInt, the parse ignores leading zeros |
| `Numeric.NumericParses` | App.js:19-27 | on a digit string, the digit-string test agrees with `isNaN`, and the decimal parse agrees with `parseInt` for values up to 2^53, where JavaScript's doubles stop being exact |
| `App.Validate` | App.js:17-22 | input is rejected as empty iff the activity or target is empty, rejected with the alert iff both are present and the target is not numeric, and accepted iff the activity is non-empty and the target numeric |
| `App.ValidateAsWritten` | App.js:17-22 | the checks as written: empty iff a field is empty; accepted iff both fields are present and `isNaN` of the target is false |
| `App.BlankTargetAdded` | App.js:17-27 | as written, a whitespace-only target passes validation while `parseInt` yields NaN for it |
| `App.ValidateAcceptsParsable` | App.js:19-27 | every target the corrected validation accepts also passes the written checks and parses to its decimal value |
| `App.WithTimeSpent` | App.js:41-45 | the time update keeps the length of the list |
| `App.WithTimeSpentAt` | App.js:42-44 | at each position, a goal with the id gets the new time and nothing else changed; a goal with another id is unchanged |
| `App.UpdatePreserves` | App.js:41-45 | the update keeps length and order, and keeps every entry's id, activity, target and dates; entries with the id have the new time; others are unchanged |
| `App.UpdateAbsent` | App.js:42-43 | an update for an id not in the list leaves the list unchanged |
| `App.UpdateLastWins` | App.js:40-46 | two updates for one id amount to the last one |
| `App.UpdateAppend` | App.js:32-44 | an update after an append is the update of the earlier list followed by the update of the appended goal alone |
| `App.UpdateKeepsIds` | App.js:41-45 | a time report never removes an id from the list |
| `App.AppendKeepsIds` | App.js:32 | appending a goal never removes an id from the list |
| `App.OtherUpdateKeepsSync` | App.js:40-46 | a report for one goal id keeps every record of another id in step with its own timer's count |
| `App.AppendKeepsSync` | App.js:32 | appending a goal with another id keeps a record in step with its timer's count |
| `App.Screen.constructor` | App.js:7-13 | the screen starts with no goals, empty inputs and both dates set to today |
| `App.Screen.SetActivity` | App.js:66 | typing sets the activity input and changes nothing else |
| `App.Screen.SetTargetTime` | App.js:72 | typing sets the target input and changes nothing else |
| `App.Screen.AddGoal` | App.js:16-37 | the outcome is `Validate` of the inputs; when rejected, list, inputs and dates are unchanged; when accepted, the list is the old list plus one goal at the end with the given id, the activity, the parsed target, zero time and the dates; both inputs become empty and both dates today |
| `App.Screen.UpdateGoalTime` | App.js:40-46 | the list becomes `WithTimeSpent` of the old list; the inputs and dates are unchanged |
| `GoalTimer.Display` | components/GoalTimer.js:31 | displayed minutes are below 60, and hours*3600 + minutes*60 <= t < hours*3600 + minutes*60 + 60 |
| `GoalTimer.DisplayUnique` | components/GoalTimer.js:31 | those two bounds determine the display: any hours/minutes pair with minutes below 60 that brackets t that way is the displayed one |
| `GoalTimer.Step` | components/GoalTimer.js:12-34 | one event changes exactly its own part of the timer state: running flips iff the button is pressed, the count grows by one iff the interval fires, and the timer leaves the screen iff it unmounts |
| `GoalTimer.RunSpent` | components/GoalTimer.js:12-34 | over any possible sequence of presses, interval firings and unmounting, the final count is the initial count plus the number of firings, so it never decreases |
| `GoalTimer.NoTicksAfterUnmount` | components/GoalTimer.js:16-20 | once unmounted, no event can happen: the interval is cleared and the state stays as it is |
| `GoalTimer.PressesOnly` | components/GoalTimer.js:34 | any number of presses is possible on a mounted timer, leaves the count unchanged, and leaves running flipped iff the number is odd |
| `GoalTimer.Timer.constructor` | components/GoalTimer.js:4-26 | mounting, for a goal the list holds, gives a paused timer with no interval and the goal's count; the count is reported to the list, which then holds it for the goal's id; the screen's inputs are unchanged |
| `GoalTimer.Timer.Press` | components/GoalTimer.js:12-34 | the button flips running and keeps the count; an interval is registered iff the timer now runs; the sync with the list is unaffected |
| `GoalTimer.Timer.Tick` | components/GoalTimer.js:13-26 | allowed only while an interval is registered; increases the count by exactly 1; reports the new count, so the list is `WithTimeSpent` for this id, every record with the id carries the new count, and `Synced()` holds afterwards iff the list held the id |
| `GoalTimer.Timer.Unmount` | components/GoalTimer.js:20 | the interval is cleared and the count is kept; no press or firing is allowed afterwards |
| `GoalTimer.TickKeepsOthersSynced` | App.js:102-112 | with one timer per goal on the same screen, a firing of one timer leaves both it and any timer of another goal id in step with the list |
| `GoalTimer.AddGoalKeepsSynced` | App.js:16-37 | adding a goal with a new id keeps an existing timer in step with the list |

## Left out

- Rendering and layout are not modelled: JSX, the styles, the list, text inputs and buttons. They hold no logic.
- The date pickers and their change handlers (App.js:49-58) are not modelled, and neither is the locale formatting of dates. The dates are opaque strings, and the reset to today takes "today" as a parameter.
- The alert on a non-numeric target is not modelled as a side effect. It appears only as the outcome `NotNumeric`, which changes no state.
- Id generation from `Math.random()` is not modelled. The id is a parameter of `AddGoal`, and nothing is claimed about its uniqueness.
- App.Validate: the full JavaScript `isNaN`/`parseInt` coercion is replaced by decimal-digit strings. Forms like `"1.5"`, `"1e3"` and `"0x1A"` and texts with surrounding whitespace are rejected in the model, though the written code accepts them (and truncates `"1.5"` to 1).
- App.ValidateAsWritten: covers only targets made of digits and whitespace. The written `isNaN` check also runs on other text, which the model cannot state: `"1.5"` is accepted with target 1, `"-2"` is accepted with a negative target, and `"abc"` raises the alert. The `numeric` keyboard type is only a hint, and any text can be pasted.
- Numeric.NumericParses: numbers in the model are exact and unbounded. JavaScript's `parseInt` returns a double, so it rounds digit strings past 2^53 (`"9007199254740993"` gives 9007199254740992) and gives Infinity for very long ones. The agreement with `parseInt` holds up to 2^53 only, and the same applies to the target that `AddGoal` stores.
- Wall-clock time, `setInterval` and the scheduling order of `useEffect` are not modelled. Each interval firing is one `Tick` call. The report that follows each count change is made in the same call.
- GoalTimer.Timer.Tick: `Synced()` is proved for the ticking timer and, through `TickKeepsOthersSynced` and `AddGoalKeepsSynced`, for timers of other ids. Two goals with the same id, or an `AddGoal` that reuses an id, can break it, and the model claims nothing there.
- Behaviour that the code does not have is not modelled: completion detection, auto-pause, goal deletion, persistence and reload.

## Findings

| source | as written | input that shows it | evidently intended | confidence | as-written member | corrected member |
|---|---|---|---|---|---|---|
| App.js:17-27 | the target is checked with `isNaN`, which reads a whitespace-only text as 0, and then parsed with `parseInt`, which reads no number from it | target text `" "` with a non-empty activity: the goal is added and its target is NaN | only targets that parse to a number are accepted | not executed; high | `App.BlankTargetAdded` | `App.ValidateAcceptsParsable` |
