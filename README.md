# ALIP learning platform: the client-side logic, modelled in Dafny

ALIP is a single-page React application: a dashboard with a sandbox
simulator, a mission builder, a mission result page, analytics and an
educator toolkit, all driven by hard-coded sample data. Almost all of it is
presentation. This project models the few pieces that hold logic, and proves
what they promise.

- **Sandbox simulator** (`sandbox.dfy`, module `Sandbox`). This is a wizard of
  four fixed steps. "Execute Step" logs the current step's canned message,
  marks the step completed and moves to the next step, stopping at the last
  one. "Reset Simulation" restores the initial state. The component is the
  class `Simulator`. Its fields are the active index, the console lines and
  an array of steps, and its methods update them in place. Each method is
  proved against the value-level functions `Initial`, `Action` and `Press`
  on `Snapshot`. The closed forms, the bounds and the guard analysis are
  lemmas about those functions.
- **Navigation highlighting** (`layout.dfy`, module `Layout`). `IsActive`
  matches the root path only exactly and every other path by character
  prefix. The lemmas show that at most one sidebar item is ever highlighted
  and that every route the router serves highlights exactly one item. The
  sidebar's collapse flag is the class `Sidebar`.
- **Mission builder** (`mission_builder.dfy`, module `MissionBuilder`). The
  topic field is the class `Builder`. Generate (button or Enter) navigates
  only when the topic has a visible character. The navigations are recorded
  in a field instead of being performed. Every quick suggestion and every
  template enables Generate.
- **Mission result** (`mission_result.dfy`, module `MissionResult`). It takes
  the topic from the query, with a default. The total duration is a left fold
  of NaN-aware additions over `parseInt` of each `"N min"` string, proved equal
  to a plain sum. It also models the step count, the 1-based step labels and
  the `n - 1` connectors.
- **JavaScript primitives** (`text.dfy`, module `Text`). It models
  `String.prototype.trim`, `String.prototype.startsWith` and the global
  `parseInt`, following sections 12.2, 12.3 and 19.2.5 of ECMA-262. It also
  models the decimal text of a number rendered as a JSX child, as in
  `Step {index + 1}`.
  `wrappers.dfy` holds `Option`, where `None` stands for an absent query
  value or a NaN.

At the last step every further action logs the last message again
(`SandboxSimulator.tsx:53`); `Sandbox.TerminalAction` states it.

## Model

| member | source | states |
|---|---|---|
| Sandbox.Initial | src/app/components/SandboxSimulator.tsx:14-43 | The mount state is well formed, so `steps[activeStep]` is defined from the start. Its contents are stated by `Sandbox.InitialState`. |
| Sandbox.InitialState | src/app/components/SandboxSimulator.tsx:14-43 | The initial state is well formed, at step 0, with exactly the two startup lines, no step completed and a completed count of 0. |
| Sandbox.Action | src/app/components/SandboxSimulator.tsx:45-62 | handleAction keeps every reachable state well formed: the four fixed steps with unchanged titles and descriptions, and an index in [0, 3]. |
| Sandbox.Run | src/app/components/SandboxSimulator.tsx:45-62 | Any number of actions from the initial state leaves a well-formed state, so `steps[activeStep]` and `messages[activeStep]` are always in bounds. |
| Sandbox.ActionEffect | src/app/components/SandboxSimulator.tsx:53-61 | One action appends exactly `messages[activeStep]` and keeps all earlier lines. It completes the active step, leaves the other steps unchanged and clears no flag. It advances the index exactly when the index is below the last step. |
| Sandbox.TerminalAction | src/app/components/SandboxSimulator.tsx:53-61 | At the last step an action keeps the index and the last step's completion, and appends the last message again. |
| Sandbox.AfterActions | src/app/components/SandboxSimulator.tsx:14-62 | After k actions the index is min(k, 3). A step is completed iff its index is below min(k, 4). The console is the two startup lines followed by one message per action, so it has 2 + k lines. |
| Sandbox.CountCompleted | src/app/components/SandboxSimulator.tsx:70 | The completed count never exceeds the number of steps. |
| Sandbox.CompletedAfterActions | src/app/components/SandboxSimulator.tsx:70 | After k actions the completed count, the numerator of the progress bar, is min(k, 4). |
| Sandbox.AllCompletedAfterFour | src/app/components/SandboxSimulator.tsx:45-62 | After four or more actions every step is completed and the index is at the last step. |
| Sandbox.ExecuteDisabledAsWritten | src/app/components/SandboxSimulator.tsx:90 | The button's `disabled` expression as written, also at line 265. `Sandbox.ExecuteNeverDisabledAsWritten` shows it is false in every well-formed state. |
| Sandbox.ExecuteDisabled | src/app/components/SandboxSimulator.tsx:90 | The corrected guard: at the last step and that step completed. `Sandbox.DisabledIffFinished` shows it holds after k actions iff k >= 4. |
| Sandbox.ExecuteNeverDisabledAsWritten | src/app/components/SandboxSimulator.tsx:90 | In every reachable state the disabled guard as written is false. |
| Sandbox.EnabledAfterCompletion | src/app/components/SandboxSimulator.tsx:265 | After four actions all steps are completed and the button as written is still enabled. A fifth action makes a seventh console line. |
| Sandbox.DisabledIffFinished | src/app/components/SandboxSimulator.tsx:265 | With the corrected guard the button is disabled after k actions iff k >= 4, and iff all steps are completed. |
| Sandbox.Press | src/app/components/SandboxSimulator.tsx:88-94 | A click that respects the (corrected) disabled attribute keeps the state well formed. |
| Sandbox.PressRun | src/app/components/SandboxSimulator.tsx:88-94 | Any number of such clicks from the initial state leaves a well-formed state. |
| Sandbox.PressRunStops | src/app/components/SandboxSimulator.tsx:263-266 | With the corrected guard, k clicks give the state of min(k, 4) actions, so the console never exceeds six lines. |
| Sandbox.Simulator.constructor | src/app/components/SandboxSimulator.tsx:14-43 | Mounting gives the initial state in a fresh step array. |
| Sandbox.Simulator.CurrentStep | src/app/components/SandboxSimulator.tsx:85-87 | The displayed step is always defined, and its title and description are those of the fixed step at the active index. |
| Sandbox.Simulator.HandleAction | src/app/components/SandboxSimulator.tsx:45-62 | Updating the step array in place gives exactly `Action` of the previous state, in the same array. |
| Sandbox.Simulator.HandleReset | src/app/components/SandboxSimulator.tsx:64-68 | Whatever the prior state, the result is the initial state in a fresh array. So reset is idempotent. |
| Sandbox.Simulator.IsExecuteDisabled | src/app/components/SandboxSimulator.tsx:90 | The button's disabled attribute, with the corrected guard, read from the fields. |
| Sandbox.Simulator.PressExecute | src/app/components/SandboxSimulator.tsx:88-94 | A click runs handleAction unless the button is disabled, and gives `Press` of the previous state. |
| Sandbox.Simulator.CompletedCount | src/app/components/SandboxSimulator.tsx:70 | The loop over the array counts the completed steps, and the count is at most the number of steps. |
| Layout.IsActive | src/app/components/Layout.tsx:29-34 | The Home item "/" is active iff the pathname is exactly "/". Any other item is active iff its path is a prefix of the pathname. |
| Layout.ActiveItems | src/app/components/Layout.tsx:97-99 | The highlighted sidebar items are exactly the items whose path is active, and there is at most one of them. |
| Layout.ActiveAmong | src/app/components/Layout.tsx:97-99 | The highlighted items are exactly the listed items that are active. |
| Layout.PrefixMatchIsNotSegmentAware | src/app/components/Layout.tsx:24-33 | "/missions" is active on "/missions/result" and also on "/missionsX". |
| Layout.AtMostOneActive | src/app/components/Layout.tsx:21-34 | At any pathname at most one sidebar item is highlighted. |
| Layout.OnlyActive | src/app/components/Layout.tsx:21-34 | A highlighted item is the only highlighted item. |
| Layout.HomeOnlyAtRoot | src/app/components/Layout.tsx:22-34 | At "/" Home is the only highlighted item. |
| Layout.RouteHighlightsOneItem | src/app/routes.ts:10-23 | Each served route highlights exactly its item. "/missions/result" highlights Mission Builder. |
| Layout.Sidebar.constructor | src/app/components/Layout.tsx:18 | The sidebar starts expanded. |
| Layout.Sidebar.Toggle | src/app/components/Layout.tsx:84 | A click negates the collapse flag. |
| Layout.ToggleTwiceRestores | src/app/components/Layout.tsx:84 | Two clicks restore the original flag. |
| MissionBuilder.CanGenerate | src/app/components/MissionBuilder.tsx:19 | The guard `topic.trim()` is truthy iff the topic is not all white space. |
| MissionBuilder.GenerateDisabled | src/app/components/MissionBuilder.tsx:109 | `!topic.trim()` holds iff the topic is all white space, the empty topic included. |
| MissionBuilder.GenerateTarget | src/app/components/MissionBuilder.tsx:18-22 | handleGenerate navigates iff the topic has a character that is not white space. The destination is the result page with the untrimmed topic. |
| MissionBuilder.DisabledIffNoNavigation | src/app/components/MissionBuilder.tsx:107-109 | The Generate button is disabled iff generating would navigate nowhere. |
| MissionBuilder.ShortcutsEnableGenerate | src/app/components/MissionBuilder.tsx:24-62 | Every quick suggestion and every template title enables Generate. |
| MissionBuilder.GenerateReachesResult | src/app/components/MissionBuilder.tsx:20 | A generated destination shows the topic as typed on the result page, and the sidebar keeps Mission Builder highlighted there. |
| MissionBuilder.Builder.constructor | src/app/components/MissionBuilder.tsx:15 | The topic starts empty, and nothing has been navigated to. |
| MissionBuilder.Builder.SetTopic | src/app/components/MissionBuilder.tsx:99 | Typing sets the topic to the field's value and navigates nowhere. |
| MissionBuilder.Builder.ChooseQuickTopic | src/app/components/MissionBuilder.tsx:127-130 | A suggestion click sets the topic to that suggestion, which enables Generate. |
| MissionBuilder.Builder.ChooseTemplate | src/app/components/MissionBuilder.tsx:152-160 | A template click sets the topic to the template's title, which enables Generate. |
| MissionBuilder.Builder.IsGenerateDisabled | src/app/components/MissionBuilder.tsx:109 | The button is disabled iff the topic has no visible character. |
| MissionBuilder.Builder.HandleGenerate | src/app/components/MissionBuilder.tsx:18-22 | It appends one navigation to the result page iff the topic has a visible character, and otherwise changes nothing. |
| MissionBuilder.Builder.HandleKeyDown | src/app/components/MissionBuilder.tsx:100 | Enter runs the same guarded generate. Any other key does nothing. |
| MissionResult.ResolveTopic | src/app/components/MissionResult.tsx:19 | A present non-empty query value is the topic. An absent or empty value gives "Web3 Development". The topic is never empty. |
| MissionResult.AddMinutes | src/app/components/MissionResult.tsx:66 | `sum + minutes`, where NaN on either side gives NaN. Its effect on the whole reduce is stated by `MissionResult.TotalDuration`. |
| MissionResult.FoldDurations | src/app/components/MissionResult.tsx:64-67 | The reduce callback applied left to right. Once the running sum is NaN it stays NaN to the end. |
| MissionResult.TotalDuration | src/app/components/MissionResult.tsx:64-67 | The reduce is a number iff every duration starts with an integer, and it is then the sum of those integers. Otherwise it is NaN. |
| MissionResult.TotalOfFormatted | src/app/components/MissionResult.tsx:64-67 | For durations written "N min", the total is the sum of the N. |
| MissionResult.GeneratedTotalDuration | src/app/components/MissionResult.tsx:21-67 | The generated mission's total is 5 + 8 + 15 + 5 + 20 = 53. |
| MissionResult.HasConnector | src/app/components/MissionResult.tsx:172 | The test `index < missionSteps.length - 1` that draws a connector below a step. Its count is stated by `MissionResult.ConnectorCount`. |
| MissionResult.ConnectorsBelow | src/app/components/MissionResult.tsx:172 | The number of connectors drawn below the first steps. Its value is stated by `MissionResult.ConnectorCount`. |
| MissionResult.ConnectorCount | src/app/components/MissionResult.tsx:172 | Every step but the last has a connector, so n steps have n - 1 connectors (none for no steps). |
| MissionResult.StepLabel | src/app/components/MissionResult.tsx:182 | The text `Step {index + 1}`. Its meaning is stated by `MissionResult.StepLabelNumber` and `MissionResult.StepLabelsDistinct`. |
| MissionResult.StepLabelNumber | src/app/components/MissionResult.tsx:182 | The label of index i is "Step " followed by a number that reads back as i + 1. |
| MissionResult.StepLabelsDistinct | src/app/components/MissionResult.tsx:182 | No two steps share a label. |
| MissionResult.Summarize | src/app/components/MissionResult.tsx:113-182 | For any query and steps, the page shows a non-empty topic, the number of steps, one label per step and one connector fewer than there are steps. |
| MissionResult.GeneratedOverview | src/app/components/MissionResult.tsx:113-182 | The page shows 5 steps, 53 minutes, labels "Step 1" to "Step 5" and 4 connectors, whatever the topic. |
| Text.Trim | src/app/components/MissionBuilder.tsx:19 | `trim()` is empty iff the input is all white space. Otherwise it begins and ends with a visible character. |
| Text.StartsWith | src/app/components/Layout.tsx:33 | `startsWith` holds iff the argument is a prefix of the string. |
| Text.ParseInt | src/app/components/MissionResult.tsx:65 | `parseInt` of a string that is empty or white space, or whose first visible character is neither a sign nor a digit, is NaN. One whose first visible character is a digit, without a `0x` prefix, is a non-negative number. |
| Text.ParseIntOfNatToString | src/app/components/MissionResult.tsx:65 | `parseInt` reads back a decimal number from the front of a string when a non-alphanumeric character follows it. |
| Text.NatToStringValue | src/app/components/MissionResult.tsx:182 | The decimal rendering of a number denotes that number. |
| Text.NatToStringInjective | src/app/components/MissionResult.tsx:182 | Distinct numbers render differently. |

## Findings

| source | as written | input that shows it | evidently intended | confidence | as-written member | corrected member |
|---|---|---|---|---|---|---|
| src/app/components/SandboxSimulator.tsx:90 | `disabled={activeStep >= steps.length && …}`, also at line 265. `activeStep` never exceeds `steps.length - 1`, so the guard is always false and Execute Step is never disabled. | Four clicks from the initial state: all steps are completed and the button is still enabled. A fifth click logs a seventh line. | `activeStep >= steps.length - 1 && steps[steps.length - 1].completed`, which disables the button once the last step is completed. | medium: the guard's second conjunct `steps[steps.length - 1].completed` suggests it was meant to disable the button after the last step; not executed | Sandbox.EnabledAfterCompletion | Sandbox.PressRunStops |

## Left out

- Rendering, Tailwind classes, icons, `motion` animations and the sidebar width animation are presentational.
- `AnalyticsDashboard.tsx`, `EducatorToolkit.tsx` and `HomeDashboard.tsx` are static literal data rendered through cards and charts. `main.tsx` is not part of this model. From `routes.ts` only the list of served paths is used.
- `progressPercent` is a floating-point division, and `Math.round` displays it. Only its integer numerator, the completed count, is modelled.
- `encodeURIComponent`, the router's query decoding and `navigate` are library calls. A navigation is recorded as a `Destination` holding the path and the topic as the result page will read it. This assumes the router decodes exactly what was encoded. No URL string is built.
- MissionBuilder.Builder.HandleGenerate: `encodeURIComponent` throws a URIError on a topic holding a lone UTF-16 surrogate, and handleGenerate then throws instead of navigating. That exception path is not modelled; the model always navigates when the guard holds.
- The router's `location.pathname` is a parameter of `IsActive`. It is not derived from a URL.
- React state batching, stale closures and re-rendering are not modelled. Each handler is one atomic step on the latest state. Two clicks handled within one render, which would both read the same `activeStep`, are not modelled.
- `handleAction` shallow-copies the step array and then sets `completed` on a step object that the old and new arrays share. The model updates that step in the one array the component keeps, because nothing reads the old array afterwards.
- Strings are sequences of Unicode scalar values, not UTF-16 code units. `trim`, `startsWith` and `parseInt` are modelled on those.
- MissionResult.AddMinutes: `sum + minutes` is IEEE 754 double addition; the model adds unbounded integers. Rounding of sums above 2^53 and infinities are not modelled: a duration of 309 or more digits parses to Infinity, and Infinity plus -Infinity is NaN where the model gives a number. `MissionResult.TotalDuration` claims the exact sum on that basis.
- Text.ParseInt: it returns a mathematical integer. Negative zero and the loss of precision of numbers above 2^53 are not modelled.
- Sandbox.Simulator.PressExecute: it uses the corrected disabled guard. The guard as written is `Sandbox.ExecuteDisabledAsWritten`, and with it a click always runs the handler.
