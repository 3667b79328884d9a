# scenario-macos, modelled in Dafny

scenario-macos is an Electron tray application for macOS. It sets up a
working "scenario" in one step: activate applications and place their
windows, open URLs, close browsers, mute the volume, open files, and show
a window of markdown notes. Scenarios are read from `scenarios.json`, in
an old form (an object mapping names to action arrays) or a new form
(`{ "scenarios": [{ name, actions }] }`). A scenario runs when a
`myapp-scenario://run/<name>` link is opened or when the renderer asks
for it through the universal action handler. The application also has a
stopwatch, which logs finished "flow sessions" to a CSV file, and a tray
countdown timer.

The model covers these parts:

- `LegacyMain` (main.js): the URL handler, the URL pick of a second
  instance, the scenario object that `loadScenarios` stores, and the
  main-process `runScenario`. That loop replays actions through
  AppleScript and `shell.openExternal` and records one or two results per
  action.
- `AppleScript` (utils/applescript.js, and its copy in main.js): the
  `osascript -e "..."` command built from a script, and the callback
  protocol over the executor's `(error, stdout, stderr)`.
- `ScenarioLoader` (utils/scenario-loader.js): both file forms, the
  defaults used when the file is missing, and the reset to empty when
  reading or parsing fails.
- `MenuAction` and `ScenarioRunner` (utils/scenario-runner.js):
  - the menu navigation scan, which records the first markdown note;
  - the note-window registry, keyed by scenario name;
  - display choice and placement at the top-right corner;
  - the per-action dispatch of the newer runner.
- `Stopwatch` (stopwatch/manager.js): `toggle`, the one-second interval,
  `stopAndGetDuration`, `reset` and `formatTime`.
- `ActionHandlers` (utils/action-handlers.js): `handleUniversalAction`,
  including the flow-session CSV log.
- `Countdown` (countdown/countdown.js): the `m:ss` tray title and the
  countdown sequence.

Supporting modules:

- `JsValue`: JSON values, JS property order and truthiness.
- `Text`: `split`, `startsWith` and `replace`.
- `Decimal`: number printing, `parseInt` and `padStart`.
- `Uri`: `decodeURIComponent`, plus the matching `encodeURIComponent`
  used as its inverse.

Everything the program asks of the outside world is passed in as a
parameter:

- the AppleScript executor, as a function from (script number, script
  text) to `(error, stdout, stderr)`;
- `shell.openExternal`;
- the screen's displays;
- clock readings;
- the locale date formatter;
- whether a file write fails;
- whether `scenarios.json` exists and what it parses to.

Scripts are recorded as the text handed to `runAppleScript`, in the order
they are issued.

## Model

| member | source | states |
|---|---|---|
| LegacyMain.HandleUrlScheme | main.js:199-205 | a URL is refused for its scheme exactly when it does not start with `myapp-scenario://` |
| LegacyMain.HandleUrlRunPrefix | main.js:207-216 | every URL that runs a scenario starts with `myapp-scenario://run/` |
| LegacyMain.RunPathCommand | main.js:207-216 | the command path `run/<segment>[/...]` runs the scenario named by the decoded segment, or fails on a malformed escape; later segments are ignored |
| LegacyMain.HandleUrlOfSegment | main.js:199-216 | for a segment with no `:` or `/`, and a tail that is empty or a `/` followed by colon-free text, the URL `myapp-scenario://run/<segment><tail>` runs the decoded segment's scenario, or fails on a malformed escape |
| LegacyMain.HandleUrlOfLink | main.js:199-216 | a link built with `encodeURIComponent(name)` runs exactly the scenario `name`, whatever characters it has |
| LegacyMain.PickUrl | main.js:191 | the picked argument is the first command-line argument that starts with the scheme; there is none exactly when no argument does |
| LegacyMain.LegacyApp.SecondInstance | main.js:183-196 | without a scheme argument nothing runs; otherwise the picked URL is handled as by `open-url` |
| LegacyMain.LegacyApp.OpenUrl | main.js:171-175 | a URL outside the scheme, or with a path other than `run/<name>`, runs nothing; a name that does not decode throws `URI malformed` out of the handler, uncaught; a `run` URL runs the decoded name against the loaded scenarios |
| LegacyMain.LegacyApp.LoadScenarios | main.js:11-35 | the stored object is the parsed file, the two demo scenarios when the file is missing, or `{}` when it cannot be read or parsed |
| LegacyMain.LegacyApp.RunScenario | main.js:257-390 | the loop's outcome is that of replaying the named action array; nothing runs exactly when the name does not give an array; a finished run has at least one result per action |
| LegacyMain.AppStep | main.js:271-324 | an `app` action issues the activation script, then the geometry script only when both `position` and `size` are given; it records one result |
| LegacyMain.MuteStep | main.js:339-351 | a mute records one result, or two when its script fails (its own failure, then the rejection the catch records) |
| LegacyMain.OpenFileStep | main.js:352-375 | `open_file_in_app` issues its script only when `filePath` is a string, and records one result either way |
| LegacyMain.StepShape | main.js:269-389 | one action issues the scripts its fields determine, whatever the executor answers, and records one result, or two for a failing mute |
| LegacyMain.RunActionsShape | main.js:268-390 | a run issues the scripts of its actions in action order, independent of any failure, and records between one and two results per action |
| LegacyMain.OneResultEach | main.js:268-390 | with an executor that never fails there is exactly one result per action |
| LegacyMain.AppAction | main.js:286-324 | an `app` action without position and size issues only the activation script and records the "no position/size" success |
| LegacyMain.CloseBrowsers | main.js:326-338 | `close_browsers` issues a quit script for each of the four browsers, in order, and records one success whatever they answer |
| LegacyMain.InvalidAction | main.js:380-383 | an action matching no branch issues nothing and records one "Invalid action format." failure carrying the action itself |
| LegacyMain.MuteFailure | main.js:339-351 | a failing mute records two failures, the second being the `Runtime error:` of the rethrown error |
| AppleScript.UnescapeEscape | utils/applescript.js:11 | escaping the quotes loses nothing: removing the added backslashes recovers the script |
| AppleScript.EscapeGuardsQuotes | utils/applescript.js:11 | in the escaped script every `"` has a backslash in front of it |
| AppleScript.Command | utils/applescript.js:11-12 | the command is `osascript -e "` plus the escaped script plus a closing quote, and the text between the quotes unescapes to the script |
| AppleScript.Replies | utils/applescript.js:15-28 | with a callback there is exactly one call; it gets an error exactly when the executor raised one; an error comes with stderr, a success with stdout |
| AppleScript.WarningIsSuccess | utils/applescript.js:22-27 | output on stderr without an error object still reaches the callback as a success with stdout |
| AppleScript.FailureText | main.js:344 | `err.message \|\| output`: the error message, or the output when the message is empty |
| AppleScript.CommandExpandsDollar | utils/applescript.js:11-15 | as written, a script whose `$` is followed by a character that starts an expansion (`(`, `{`, a name character, a digit or a special parameter), after text without `\`, `$`, backtick or newline, does not reach osascript as written: the shell expands it |
| AppleScript.SafeCommand | utils/applescript.js:11-12 | with `\`, `"`, `$` and backtick quoted, the shell hands every script to osascript unchanged |
| AppleScript.ShellWordOfShellEscape | utils/applescript.js:11-12 | the corrected quoting reads back as the script itself inside a double-quoted shell word |
| ScenarioLoader.LoadScenarios | utils/scenario-loader.js:10-58 | the returned list and map are those of the file's form: new form, old form, unrecognised, missing (demo defaults) or failed (both empty) |
| ScenarioLoader.FillMap | utils/scenario-loader.js:21-25 | the `forEach` completes exactly when no list entry is `null` (a `null` entry throws), and then the map is the one `Collect` defines |
| ScenarioLoader.CollectLookup | utils/scenario-loader.js:21-25 | the map's value for a name is the `actions` of the last entry registering that name, and absent when none does; `__proto__` never becomes an own entry, since the assignment runs the prototype setter |
| ScenarioLoader.CollectOrder | utils/scenario-loader.js:21-25 | the filled map keeps JS property order (integer-like names first, ascending, then insertion order) |
| ScenarioLoader.LoadNewForm | utils/scenario-loader.js:18-25 | for the new form the list is the file's list unchanged, and a name is in the map exactly when it is not `__proto__` and some entry has that truthy name and an array of actions |
| ScenarioLoader.EntriesAgree | utils/scenario-loader.js:26-31 | for the old form each list entry carries the map's name and that name's actions, one entry per name |
| ScenarioLoader.LoadDefault | utils/scenario-loader.js:35-47 | a missing file gives "Demo Scene 1" and "Demo Scene 2", in that order, in both the list and the map, and the two agree |
| ScenarioLoader.LoadEmpty | utils/scenario-loader.js:32-55 | an unreadable file, a non-object that is not the new form, or a new-form list holding `null` gives an empty list and map |
| ScenarioLoader.CollectEntries | utils/scenario-loader.js:47-49 | converting the map to the new form and back gives the same map when no name is empty or `__proto__`, which is the premise of the disabled write-back |
| ScenarioLoader.DemoScenarios | utils/scenario-loader.js:38-46 | the demo scenario object is in JS property order |
| ScenarioLoader.EntryMembers | utils/scenario-loader.js:30 | `{ name, actions }` built from a map entry gives that name and those actions back |
| JsValue.SetMember | utils/scenario-loader.js:23 | assigning an own data property sets that key, leaves every other key as it was, and adds a field only when the key is new |
| JsValue.SetMemberOrder | utils/scenario-loader.js:23 | assigning a property keeps JS property order |
| JsValue.Find | utils/scenario-runner.js:172 | `find` returns the first element the predicate accepts; reading a property of a `null` element before that throws |
| JsValue.LookupDistinct | main.js:259 | with distinct keys, the value read for a key is that key's field |
| Text.JoinSplit | main.js:201 | joining the parts of `split` with the separator gives back the string |
| Text.SplitAtSeparator | main.js:208 | text without the separator, then the separator, splits into that text followed by the pieces of the rest |
| Uri.DecodeEncode | main.js:211 | `decodeURIComponent` inverts `encodeURIComponent` on every string |
| Uri.Utf8RoundTrip | main.js:211 | the UTF-8 decoding `decodeURIComponent` uses inverts the encoding of every character |
| Decimal.ParseIntOfIntToString | utils/scenario-runner.js:199 | `parseInt` reads back every printed integer |
| Decimal.DigitsValueOfNatToString | stopwatch/manager.js:27-28 | a printed natural number reads back as itself |
| MenuAction.NoteItem | utils/scenario-runner.js:31-41 | the recorded path is the note action's `file_path`; width and height are the action's own when truthy and fall back to 400 and 600 exactly when they are falsy |
| MenuAction.Navigate | utils/scenario-runner.js:23-52 | the navigation loop computes the scan defined over the whole menu, including the throw on a `null` item |
| MenuAction.NavigateSubmenu | utils/scenario-runner.js:29-46 | the inner loop over a submenu's items continues the scan, or stops with the error its items raise |
| MenuAction.NavigateRecordsFirst | utils/scenario-runner.js:23-44 | a scan that does not throw records the first markdown note among the items of the valid submenus, in menu order |
| MenuAction.ScanItemsFirst | utils/scenario-runner.js:29-44 | within a submenu, the note recorded is the first item carrying one |
| MenuAction.SkipsInvalidTop | utils/scenario-runner.js:25-51 | a non-null top-level item that is not a valid submenu is skipped without effect |
| MenuAction.FailureSticks | utils/scenario-runner.js:13-52 | once the scan throws, later top-level items change nothing |
| MenuAction.ScanMenuAppend | utils/scenario-runner.js:24-52 | scanning two menus one after the other is scanning their concatenation |
| ScenarioRunner.DisplayIndex | utils/scenario-runner.js:196-206 | the chosen display index is -1 (the primary) or a valid index |
| ScenarioRunner.DisplayOfIndex | utils/scenario-runner.js:198-201 | a numeric `display` within range selects that display |
| ScenarioRunner.DisplayFallback | utils/scenario-runner.js:195-206 | an absent, unparsable or out-of-range `display` selects the primary display; otherwise the parsed index is used |
| ScenarioRunner.TopRightCorner | utils/scenario-runner.js:208-211 | the window's right edge is the work area's right edge and its top the work area's top; a window no wider than the area lies within it horizontally |
| ScenarioRunner.FirstItemAction | utils/scenario-runner.js:189 | a found first-item action is a `show_markdown_note` action |
| ScenarioRunner.FirstItemActionFirst | utils/scenario-runner.js:189 | the action found is the first `show_markdown_note` action of `items[0].actions`; with an array of actions, none is found only when none is such an action; the search throws exactly when `actions` is present, not `null` and not an array, or when a `null` action comes before the first note action |
| ScenarioRunner.NewWindowDefaults | utils/scenario-runner.js:189-191 | without a first-item action the window is 800 by 600 at the top of the primary display |
| ScenarioRunner.AfterMenu | utils/scenario-runner.js:234 | filling the note window never changes the count of created windows |
| ScenarioRunner.ScriptFor | utils/scenario-runner.js:242-252 | an action issues a script exactly for `app` with a name, `url` with a url, `close_browsers`, or `close_app` with a name |
| ScenarioRunner.StepEffects | utils/scenario-runner.js:183-259 | each action issues at most one script or records at most one failure, which carries the action; only a menu changes the registry; a menu never issues a script and fails only when a new window's first item throws |
| ScenarioRunner.MenuReusesWindow | utils/scenario-runner.js:187-188 | a menu for a scenario with a registered window creates no window and keeps that window |
| ScenarioRunner.MenuCreatesWindow | utils/scenario-runner.js:188-232 | a menu for a scenario without a window creates one, registered under the scenario unless the navigation throws (then it is closed); no other scenario's entry changes |
| ScenarioRunner.StepTracked | utils/scenario-runner.js:228-232 | after any action every registered window is one the runner created, and no two scenarios share a window |
| ScenarioRunner.RunActionsAppend | utils/scenario-runner.js:182-262 | running two action lists one after the other is running their concatenation |
| ScenarioRunner.RunActionsCount | utils/scenario-runner.js:182-262 | a run issues at most one script or records at most one failure per action |
| ScenarioRunner.ScriptedRun | utils/scenario-runner.js:242-252 | a scenario of script actions only issues one script per action, records nothing and leaves the registry as it was |
| ScenarioRunner.Runner.RunScenario | utils/scenario-runner.js:166-265 | the new registry and outcome are those of replaying the named scenario; nothing runs exactly when the first entry with that name has no array of actions, or there is no such entry (a `null` entry met first throws); the registry stays well-formed |
| ScenarioRunner.Runner.Perform | utils/scenario-runner.js:183-259 | one iteration of the loop updates the registry and issues and records as the action prescribes |
| ScenarioRunner.Runner.OpenMenu | utils/scenario-runner.js:185-234 | the menu branch finds or creates the window and fills it as `MenuStep` defines |
| ScenarioRunner.Runner.FillWindow | utils/scenario-runner.js:8-64 | the navigation resizes the window to the first note's size, closes it on a throw, or leaves it |
| ScenarioRunner.Runner.WindowClosed | utils/scenario-runner.js:229-232 | a closed window leaves the registry, nothing else changes, and the registry stays well-formed |
| ScenarioRunner.Runner.constructor | utils/scenario-runner.js:6 | the registry starts empty |
| Stopwatch.FormatTimeFields | stopwatch/manager.js:26-30 | both fields of `formatTime` are digits reading back as the whole minutes and the remaining seconds; below 100 minutes the text is `MM:SS` |
| Stopwatch.FormatTime | stopwatch/manager.js:26-30 | the text ends with a colon and two characters |
| Stopwatch.Toggled | stopwatch/manager.js:52-70 | toggling flips `isRunning` and keeps the count; only the first start after a reset records a start time |
| Stopwatch.PauseResume | stopwatch/manager.js:52-70 | pausing and resuming a running stopwatch gives it back unchanged, with its first start time |
| Stopwatch.StartPause | stopwatch/manager.js:58-61 | starting and pausing keeps the count and the first start time |
| Stopwatch.SecondsWhileRunning | stopwatch/manager.js:63-66 | while running, n seconds add exactly n |
| Stopwatch.SecondsWhilePaused | stopwatch/manager.js:54-56 | while paused, seconds go by without counting |
| Stopwatch.TogglesKeepSeconds | stopwatch/manager.js:52-70 | any sequence of toggles keeps the count |
| Stopwatch.StopwatchManager.constructor | stopwatch/manager.js:10-17 | a new manager is stopped at 0 with no start time |
| Stopwatch.StopwatchManager.Toggle | stopwatch/manager.js:52-70 | the new state is `Toggled` of the old; the returned flag is the new, flipped `isRunning`; the interval runs exactly while running |
| Stopwatch.StopwatchManager.Tick | stopwatch/manager.js:63-66 | the interval callback adds one second |
| Stopwatch.StopwatchManager.StopAndGetDuration | stopwatch/manager.js:73-92 | returns the count, the start time (or now if never started) and now, and clears everything |
| Stopwatch.StopwatchManager.Reset | stopwatch/manager.js:94-105 | clears everything and returns `isRunning` false |
| Countdown.Minutes | countdown/countdown.js:5 | for a non-negative t, `parseInt(t/60)` is the whole number of minutes: t minus 60 times it lies in 0..59 |
| Countdown.MinutesSeconds | countdown/countdown.js:5-6 | the seconds part lies in 0..59 and minutes and seconds recompose t |
| Countdown.ShowTimeFields | countdown/countdown.js:4-13 | the title is the minutes, a colon and the seconds padded to two digits |
| Countdown.Shown | countdown/countdown.js:22-31 | from t the countdown shows t+1 counts, starting at t |
| Countdown.ShownCountDown | countdown/countdown.js:22-31 | the i-th count shown is t-i, so it ends at 0 |
| Countdown.Titles | countdown/countdown.js:22-31 | the titles are those of t, t-1, ..., 0 in order, then the cleared title last |
| Countdown.TimeStart | countdown/countdown.js:32-34 | a countdown of m minutes shows m*60+2 titles |
| Countdown.TimeStartTitle | countdown/countdown.js:32-34 | its first title is `m:00` |
| ActionHandlers.DurationTextFields | utils/action-handlers.js:83-85 | the duration text splits on its space into a minutes and a seconds field, ending in `m` and `s`, whose digits recompose the duration with seconds below 60 |
| ActionHandlers.FormatDate | utils/action-handlers.js:88-93 | a missing date gives the empty string; otherwise the text keeps its length, with each `/` replaced by `-` and every other character unchanged |
| Text.ReplaceAllChar | utils/action-handlers.js:92 | replacing a character by one character keeps the length and changes exactly the positions holding it |
| ActionHandlers.CsvRowFields | utils/action-handlers.js:104 | a CSV row ends with a newline and splits on `,` into start, end, seconds and the duration text |
| ActionHandlers.HeaderOnce | utils/action-handlers.js:108-121 | logging sessions into a missing file writes the header once, followed by the rows in order; an existing file only gets the rows appended |
| ActionHandlers.FlowLog.Record | utils/action-handlers.js:106-128 | a successful write creates the file with the header or appends the row; a failed write leaves the file and reports the error |
| ActionHandlers.Finish | utils/action-handlers.js:71-129 | a zero-second session logs nothing and fails; a successful write appends the session's row and replies with the duration text; a failed write leaves the file unchanged and throws `Failed to write log:` with the error |
| ActionHandlers.HandleUniversalAction | utils/action-handlers.js:12-134 | each action type gets its reply: file requests, save, run (throws without a scenario list), toggle, reset, widget, finish; an unknown type throws; only `run_scenario` touches the runner, only `finish_flow_session` the log, and only toggle, reset and finish the stopwatch, which stays well-formed |

## Left out

- The Electron shell is not modelled: windows, the tray, menus, IPC, notifications, HTML generation, the preload scripts and the stopwatch widget window. `stopwatch_open_widget` only answers `WidgetOpened`.
- Timers are not modelled as delays. The stopwatch interval is a `Tick` method or a `Second` event. The countdown's one-second `setTimeout` is the sequence of counts. The 200 ms and 500 ms pauses between actions are dropped.
- Unawaited `runAppleScript` calls and the `Promise.all` of `close_browsers` are modelled as issued in program order. Their answers cannot change what is recorded.
- `JSON.stringify(action)` is kept as the action value itself, not as its text.
- Numbers are integers. Fractions, exponents, `NaN` and JavaScript's string-to-number coercion are not modelled.
- ScenarioRunner.TopRight: `x` is undefined when the width is not a number. JavaScript would compute `NaN` or coerce a numeric string.
- ScenarioRunner.Resized: the resize is modelled as failing for anything but numbers. The real `setSize` checks its arguments in native code.
- The `closed` event of a note window is the separate method `Runner.WindowClosed`. The model does not fix when, relative to a run, the user closes a window.
- The display list is a parameter fixed for a whole run. Displays added or removed mid-run are not modelled.
- The reading, rendering and writing of markdown files are left out. The universal handler answers with the request (`FileRequest`) or with what was saved (`Saved`). `marked` and the file system are not part of this model.
- Paths are not modelled: `path.resolve`, the home directory and the fixed log path. The flow log is one `FlowLog` object whose content is the file's content; `None` means the file does not exist.
- `toLocaleString('zh-CN')` is a parameter from clock readings to text. `FormatDate` applies the source's `/`-to-`-` replacement to whatever it returns.
- Countdown.Titles: takes a natural count. A negative count would never stop in the source, and `parseInt` of a non-numeric minute (`NaN`) is not modelled. It describes one countdown on its own: picking a second duration while one runs starts a second, independent `setTimeout` chain (countdown/countdown.js:22-34 has no guard), and the interleaved titles of overlapping countdowns, where the first to reach 0 clears the title while the other still counts, are not modelled.
- The tray menu of the countdown is the constant `Countdown.MenuMinutes`. The menu objects themselves are Electron UI.
- The logging sinks are left out: `console.*` and the stopwatch's tray title (`updateUI`, stopwatch/manager.js:33-38, 89, 102). So are the results summary at the end of main.js `runScenario`, which is computed and never used, and the unused `actionResult` of `handleMenuAction`.
- JsValue.SetMember: models the assignment of an own data property only. The `__proto__` setter inherited from `Object.prototype` is not part of it; `Collect` keeps that key out of the map instead.
- ScenarioLoader.Collect: a new-form entry named `__proto__` replaces the map's prototype with its actions array. The model records only that no own entry appears; names later read through that prototype (such as `length` or `0`) are not modelled, and no modelled code reads the loader's map by name.
- ScenarioLoader.CollectEntries: requires that no name is `__proto__`. An old-form file keeps such a member as its own (`JSON.parse` creates it), but the new form drops it, so that round trip does not hold.
- AppleScript.ShellWord: an expansion inside the double-quoted word is only recognised, not carried out; the model says the argument is not the script's text, not what it becomes.
- The scenario runner's unquoted application names in `tell application ${name}` are kept as written. Whether AppleScript accepts them is outside this model.
- ActionHandlers.HandleUniversalAction: the payload fields are strings. The renderer always sends strings, so a non-string `filePath` is not modelled.

## Findings

| source | as written | input that shows it | evidently intended | confidence | as-written member | corrected member |
|---|---|---|---|---|---|---|
| utils/applescript.js:11-12 (and main.js:136-137) | only `"` is escaped before the script is put between double quotes in a `/bin/sh` command, so `$`, backticks and `\` keep their shell meaning | the url action script `open location "https://example.com/$(id)"`: the shell runs `id` and splices in its output | the script reaches osascript exactly as written | not executed | AppleScript.CommandExpandsDollar | AppleScript.SafeCommand |
