/** The main process of main.js: the `myapp-scenario://` URL handler, the
    pick of a URL from a second instance's command line, the scenario
    object it loads, and its `runScenario`, which replays a scenario's
    actions through AppleScript and `shell.openExternal`. */
module LegacyMain {
  import opened Wrappers
  import opened JsValue
  import Text
  import Uri
  import AppleScript
  import ScenarioLoader

  // ---------------------------------------------------------------------
  // The URL scheme.

  const Protocol := "myapp-scenario"
  const SchemePrefix := "myapp-scenario://"

  /** What `handleUrl` does with a URL: run a named scenario, or stop because
      of the scheme, the command path, or a `decodeURIComponent` that throws. */
  datatype UrlCommand = Run(name: string) | BadScheme | BadPath | BadEncoding

  function HandleUrl(url: string): UrlCommand {
    var urlParts := Text.Split(url, "://");
    if |urlParts| < 2 || urlParts[0] != Protocol then BadScheme
    else HandleCommandPath(urlParts[1])
  }

  /** The second half of `handleUrl`: the command path after the scheme. */
  function HandleCommandPath(commandPath: string): UrlCommand {
    var pathParts := Text.Split(commandPath, "/");
    if |pathParts| >= 2 && pathParts[0] == "run" then
      match Uri.Decode(pathParts[1])
      case None => BadEncoding
      case Some(name) => Run(name)
    else BadPath
  }

  /** `url.split("://")` of a URL that starts with the scheme. */
  lemma SplitScheme(path: string)
    ensures Text.Split(SchemePrefix + path, "://") == [Protocol] + Text.Split(path, "://")
  {
    assert ':' !in Protocol;
    assert SchemePrefix + path == Protocol + "://" + path;
    Text.SplitAtSeparator(Protocol, path, "://");
  }

  /** A URL is turned down for its scheme exactly when it does not start
      with `myapp-scenario://`. */
  lemma HandleUrlScheme(url: string)
    ensures HandleUrl(url).BadScheme? <==> !Text.StartsWith(url, SchemePrefix)
  {
    if Text.StartsWith(url, SchemePrefix) {
      var rest := url[|SchemePrefix|..];
      assert url == SchemePrefix + rest;
      SplitScheme(rest);
    } else {
      Text.SplitHead(url, "://");
    }
  }

  /** Every URL that runs a scenario starts with `myapp-scenario://run/`. */
  lemma HandleUrlRunPrefix(url: string)
    requires HandleUrl(url).Run?
    ensures Text.StartsWith(url, SchemePrefix + "run/")
  {
    HandleUrlScheme(url);
    var rest := url[|SchemePrefix|..];
    assert url == SchemePrefix + rest;
    SplitScheme(rest);
    var commandPath := Text.Split(rest, "://")[0];
    Text.SplitHead(rest, "://");
    Text.SplitHead(commandPath, "/");
    assert Text.StartsWith(commandPath, "run/");
    Text.StartsWithTrans(rest, commandPath, "run/");
    Text.StartsWithConcat(url, SchemePrefix, "run/");
  }

  /** The command path `run/<segment><tail>` splits into `run`, the segment
      and the pieces of the tail. */
  lemma SplitRunPath(segment: string, tail: string)
    requires '/' !in segment && (tail == [] || tail[0] == '/')
    ensures |Text.Split("run/" + segment + tail, "/")| >= 2
    ensures Text.Split("run/" + segment + tail, "/")[..2] == ["run", segment]
  {
    assert "run/" + segment + tail == "run" + "/" + (segment + tail);
    Text.SplitAtSeparator("run", segment + tail, "/");
    Text.SplitPastPrefix(segment, tail, "/");
    if tail == [] {
      Text.SplitWithout(tail, "/");
    } else {
      assert tail == [] + "/" + tail[1..];
      Text.SplitAtSeparator([], tail[1..], "/");
    }
    assert segment + [] == segment;
  }

  /** A URL `myapp-scenario://run/<segment>` followed by nothing or by
      further `/` segments runs the scenario the decoded segment names. */
  lemma HandleUrlOfSegment(segment: string, tail: string)
    requires ':' !in segment && '/' !in segment
    requires tail == [] || (tail[0] == '/' && ':' !in tail)
    ensures HandleUrl(SchemePrefix + "run/" + segment + tail) ==
      match Uri.Decode(segment) case None => BadEncoding case Some(name) => Run(name)
  {
    var path := "run/" + segment + tail;
    assert SchemePrefix + "run/" + segment + tail == SchemePrefix + path;
    LinkUrlParts(path);
    RunPathCommand(segment, tail);
  }

  /** The command path `run/<segment><tail>` decodes the segment. */
  lemma RunPathCommand(segment: string, tail: string)
    requires '/' !in segment && (tail == [] || tail[0] == '/')
    ensures HandleCommandPath("run/" + segment + tail) ==
      match Uri.Decode(segment) case None => BadEncoding case Some(name) => Run(name)
  {
    SplitRunPath(segment, tail);
    var pathParts := Text.Split("run/" + segment + tail, "/");
    assert pathParts[..2] == ["run", segment];
    assert pathParts[0] == "run" && pathParts[1] == segment;
  }

  /** `url.split("://")` of a scheme URL whose path has no colon. */
  lemma LinkUrlParts(path: string)
    requires ':' !in path
    ensures Text.Split(SchemePrefix + path, "://") == [Protocol, path]
  {
    SplitScheme(path);
    Text.SplitWithout(path, "://");
  }

  /** The link `myapp-scenario://run/<encodeURIComponent(name)>`, followed by
      nothing or by further `/` segments, runs the scenario `name`. */
  lemma HandleUrlOfLink(name: string, tail: string)
    requires tail == [] || (tail[0] == '/' && ':' !in tail)
    ensures HandleUrl(SchemePrefix + "run/" + Uri.Encode(name) + tail) == Run(name)
  {
    var e := Uri.Encode(name);
    assert ':' !in e && '/' !in e;
    HandleUrlOfSegment(e, tail);
    Uri.DecodeEncode(name);
  }

  /** `commandLine.find(arg => arg.startsWith("myapp-scenario://"))`. */
  function PickUrl(commandLine: seq<string>): (url: Option<string>)
    ensures url.Some? ==> Text.StartsWith(url.value, SchemePrefix)
    ensures url.Some? ==>
      exists i :: 0 <= i < |commandLine| && commandLine[i] == url.value
        && forall j :: 0 <= j < i ==> !Text.StartsWith(commandLine[j], SchemePrefix)
    ensures url.None? ==> forall j :: 0 <= j < |commandLine| ==> !Text.StartsWith(commandLine[j], SchemePrefix)
  {
    if commandLine == [] then None
    else if Text.StartsWith(commandLine[0], SchemePrefix) then Some(commandLine[0])
    else
      var r := PickUrl(commandLine[1..]);
      assert forall j :: 1 <= j < |commandLine| ==> commandLine[j] == commandLine[1..][j - 1];
      r
  }

  // ---------------------------------------------------------------------
  // Replaying actions.

  /** The `action` field of a result: a text, or `JSON.stringify(action)`,
      which is kept as the action value itself. */
  datatype Descriptor = Label(text: string) | Json(action: Value)

  datatype ActionResult = ActionResult(action: Descriptor, success: bool, message: string)

  /** The outside world of one run: the AppleScript executor, asked for the
      `k`-th script of the run, and `shell.openExternal` for the `i`-th
      action, which either resolves (`None`) or rejects with a message. */
  datatype World = World(exec: (nat, string) -> AppleScript.ExecResult, openExternal: (nat, Value) -> Option<string>)

  /** The scripts and results one action contributes. */
  datatype Outcome = Outcome(scripts: seq<string>, results: seq<ActionResult>)

  const Browsers: seq<string> := ["Safari", "Google Chrome", "Firefox", "Microsoft Edge"]

  function ActivateScript(name: string): string {
    "tell application \"" + name + "\" to activate"
  }

  /** The System Events script that moves and resizes window 1 of a process. */
  function GeometryScript(name: string, x: string, y: string, w: string, h: string): string {
    GeometryHead + name + GeometryFront + x + ", " + y + GeometrySize + w + ", " + h + GeometryLog
    + name + GeometryElse + name + GeometryError + name + GeometryTail
  }

  const GeometryHead := "\ntell application \"System Events\"\n  try\n    tell process \""
  const GeometryFront := "\"\n      set frontmost to true\n      delay 0.5 -- 等待应用变为最前\n      if exists (window 1) then\n        tell window 1\n          set position to {"
  const GeometrySize := "}\n          set size to {"
  const GeometryLog := "}\n        end tell\n        log \"Successfully set window for "
  const GeometryElse := "\"\n      else\n        log \"Window 1 not found for "
  const GeometryError := "\"\n      end if\n    end tell\n  on error errMsg number errNum\n    log \"Error setting window for "
  const GeometryTail := ": \" & errMsg & \" (\" & errNum & \")\"\n  end try\nend tell\n"

  function QuitScript(browser: string): string {
    "try\nquit app \"" + browser + "\"\nend try"
  }

  const MuteScript := "set volume output muted true"

  function OpenFileScript(escapedPath: string, appName: string): string {
    "\n          set theFile to POSIX file \"" + escapedPath + "\"\n"
    + "          tell application \"" + appName + "\"\n"
    + "            activate\n            open theFile\n          end tell\n        "
  }

  /** The message of the TypeError `action.type` throws on a `null` action. */
  const NullActionError := "Cannot read properties of null (reading 'type')"

  /** The message of the TypeError thrown when `filePath` is not a string. */
  const ReplaceError := "action.filePath.replace is not a function"

  /** `String(action.key)`. */
  function Show(action: Value, key: string): string {
    ToJsString(Get(action, key))
  }

  /** `action.key[i]` in a template literal, for a present member `key`. */
  function Coordinate(action: Value, key: string, i: nat): string
    requires Get(action, key).Some?
  {
    ToJsString(Index(Get(action, key).value, i))
  }

  predicate IsApp(action: Value) {
    IsText(Get(action, "type"), "app") && Truthy(Get(action, "name"))
  }

  predicate HasGeometry(action: Value) {
    Truthy(Get(action, "position")) && Truthy(Get(action, "size"))
  }

  predicate IsOpenFile(action: Value) {
    IsText(Get(action, "type"), "open_file_in_app") && Truthy(Get(action, "appName")) && Truthy(Get(action, "filePath"))
  }

  predicate IsUrl(action: Value) {
    IsText(Get(action, "type"), "url") && Truthy(Get(action, "url"))
  }

  /** The action matches one of the branches of `runScenario`. */
  predicate Recognised(action: Value) {
    || IsApp(action) || IsText(Get(action, "type"), "close_browsers")
    || IsText(Get(action, "type"), "mute_volume") || IsOpenFile(action) || IsUrl(action)
  }

  function RuntimeError(action: Value, message: string): ActionResult {
    ActionResult(Json(action), false, "Runtime error: " + message)
  }

  /** One iteration of the loop of `runScenario` for the `i`-th action, when
      `k` scripts have been issued before it. */
  function Step(action: Value, i: nat, k: nat, w: World): Outcome {
    if action.Null? then
      Outcome([], [RuntimeError(action, NullActionError)])
    else if IsApp(action) then AppStep(action, k, w)
    else if IsText(Get(action, "type"), "close_browsers") then
      Outcome(QuitScripts(), [ActionResult(Label("close_browsers"), true, "Attempted to close browsers.")])
    else if IsText(Get(action, "type"), "mute_volume") then MuteStep(action, k, w)
    else if IsOpenFile(action) then OpenFileStep(action, k, w)
    else if IsUrl(action) then
      match w.openExternal(i, Get(action, "url").value)
      case None => Outcome([], [ActionResult(Label(Show(action, "url")), true, "URL opened in default browser.")])
      case Some(message) => Outcome([], [RuntimeError(action, message)])
    else
      Outcome([], [ActionResult(Json(action), false, "Invalid action format.")])
  }

  /** An `app` action: activate, then set the geometry when both are given;
      a failure to activate is ignored. */
  function AppStep(action: Value, k: nat, w: World): (r: Outcome)
    requires IsApp(action)
    ensures |r.results| == 1
    ensures r.scripts == [ActivateScript(Show(action, "name"))] + (if HasGeometry(action) then [Geometry(action)] else [])
  {
    var name := Show(action, "name");
    var activate := ActivateScript(name);
    if HasGeometry(action) then
      var script := Geometry(action);
      var e := w.exec(k + 1, script);
      var result :=
        if e.error.Some? then ActionResult(Label(name), false, "Error setting window: " + AppleScript.FailureText(e))
        else ActionResult(Label(name), true, if e.stdout != "" then e.stdout else "Window set successfully.");
      Outcome([activate, script], [result])
    else
      Outcome([activate], [ActionResult(Label(name), true, "App activated (no position/size specified).")])
  }

  /** `mute_volume`: a failure is recorded and then rethrown, so the catch
      records it a second time. */
  function MuteStep(action: Value, k: nat, w: World): (r: Outcome)
    ensures |r.results| == if w.exec(k, MuteScript).error.Some? then 2 else 1
  {
    var e := w.exec(k, MuteScript);
    if e.error.Some? then
      Outcome([MuteScript], [ActionResult(Label("mute_volume"), false, "Error muting volume: " + AppleScript.FailureText(e)),
                             RuntimeError(action, e.error.value)])
    else
      Outcome([MuteScript], [ActionResult(Label("mute_volume"), true, "Volume muted.")])
  }

  /** `open_file_in_app`: `filePath.replace` throws unless the path is a string. */
  function OpenFileStep(action: Value, k: nat, w: World): (r: Outcome)
    requires IsOpenFile(action)
    ensures |r.results| == 1
    ensures r.scripts == if Get(action, "filePath").value.Str? then [OpenFile(action)] else []
  {
    match Get(action, "filePath").value
    case Str(path) =>
      var script := OpenFile(action);
      var desc := Label("open " + path + " in " + Show(action, "appName"));
      var e := w.exec(k, script);
      var result :=
        if e.error.Some? then ActionResult(desc, false, "Error opening file: " + AppleScript.FailureText(e))
        else ActionResult(desc, true, "File open command sent.");
      Outcome([script], [result])
    case _ => Outcome([], [RuntimeError(action, ReplaceError)])
  }

  /** The geometry script of an `app` action with a position and a size. */
  function Geometry(action: Value): string
    requires HasGeometry(action)
  {
    GeometryScript(Show(action, "name"), Coordinate(action, "position", 0), Coordinate(action, "position", 1),
                   Coordinate(action, "size", 0), Coordinate(action, "size", 1))
  }

  /** The script of an `open_file_in_app` action whose `filePath` is a string:
      the spaces of the path are escaped with a backslash. */
  function OpenFile(action: Value): string
    requires Get(action, "filePath").Some? && Get(action, "filePath").value.Str?
  {
    OpenFileScript(Text.ReplaceAll(Get(action, "filePath").value.s, ' ', "\\ "), Show(action, "appName"))
  }

  function QuitScripts(): seq<string> {
    seq(|Browsers|, j requires 0 <= j < |Browsers| => QuitScript(Browsers[j]))
  }

  /** The scripts an action issues, which do not depend on what the executor
      or `openExternal` answer. */
  function ScriptsOf(action: Value): seq<string> {
    if action.Null? then []
    else if IsApp(action) then
      [ActivateScript(Show(action, "name"))] + (if HasGeometry(action) then [Geometry(action)] else [])
    else if IsText(Get(action, "type"), "close_browsers") then QuitScripts()
    else if IsText(Get(action, "type"), "mute_volume") then [MuteScript]
    else if IsOpenFile(action) && Get(action, "filePath").value.Str? then [OpenFile(action)]
    else []
  }

  /** A mute whose script fails. */
  predicate MuteFails(action: Value, k: nat, w: World) {
    !action.Null? && !IsApp(action) && IsText(Get(action, "type"), "mute_volume")
    && w.exec(k, MuteScript).error.Some?
  }

  /** One action issues the scripts `ScriptsOf` names and records one result,
      or two for a failing mute. */
  lemma StepShape(action: Value, i: nat, k: nat, w: World)
    ensures Step(action, i, k, w).scripts == ScriptsOf(action)
    ensures |Step(action, i, k, w).results| == if MuteFails(action, k, w) then 2 else 1
  {
    StepScripts(action, i, k, w);
    StepResults(action, i, k, w);
  }

  lemma StepScripts(action: Value, i: nat, k: nat, w: World)
    ensures Step(action, i, k, w).scripts == ScriptsOf(action)
  {
    if !action.Null? && IsApp(action) {
      assert Step(action, i, k, w) == AppStep(action, k, w);
    } else if !action.Null? && IsOpenFile(action) {
      assert Step(action, i, k, w).scripts == OpenFileStep(action, k, w).scripts;
    }
  }

  lemma StepResults(action: Value, i: nat, k: nat, w: World)
    ensures |Step(action, i, k, w).results| == if MuteFails(action, k, w) then 2 else 1
  {
  }

  /** The loop of `runScenario` one action further. */
  lemma RunActionsNext(actions: seq<Value>, i: nat, w: World)
    requires i < |actions|
    ensures var before := RunActions(actions[..i], w);
      var step := Step(actions[i], i, |before.scripts|, w);
      RunActions(actions[..i + 1], w) == Outcome(before.scripts + step.scripts, before.results + step.results)
  {
    assert actions[..i + 1][..i] == actions[..i];
  }

  /** The loop of `runScenario` over a whole action list: scripts and
      results accumulate in action order. */
  function RunActions(actions: seq<Value>, w: World): Outcome {
    if actions == [] then Outcome([], [])
    else
      var n := |actions| - 1;
      var before := RunActions(actions[..n], w);
      var last := Step(actions[n], n, |before.scripts|, w);
      Outcome(before.scripts + last.scripts, before.results + last.results)
  }

  /** All scripts of the actions, in order. */
  function AllScripts(actions: seq<Value>): seq<string> {
    if actions == [] then [] else AllScripts(actions[..|actions| - 1]) + ScriptsOf(actions[|actions| - 1])
  }

  /** The scripts a run issues are those of its actions, in order, whatever
      the executor and `openExternal` answer; and every action gets at least
      one result, so no failure cuts the run short. */
  lemma {:induction false} RunActionsShape(actions: seq<Value>, w: World)
    ensures RunActions(actions, w).scripts == AllScripts(actions)
    ensures |actions| <= |RunActions(actions, w).results| <= 2 * |actions|
  {
    if actions != [] {
      var n := |actions| - 1;
      RunActionsShape(actions[..n], w);
      StepShape(actions[n], n, |RunActions(actions[..n], w).scripts|, w);
    }
  }

  /** With an executor that never fails, there is exactly one result per action. */
  lemma {:induction false} OneResultEach(actions: seq<Value>, w: World)
    requires forall k: nat, s: string :: w.exec(k, s).error.None?
    ensures |RunActions(actions, w).results| == |actions|
  {
    if actions != [] {
      var n := |actions| - 1;
      OneResultEach(actions[..n], w);
      StepShape(actions[n], n, |RunActions(actions[..n], w).scripts|, w);
    }
  }

  /** An `app` action issues the geometry script only when it has both a
      position and a size; otherwise its one result is the activation notice. */
  lemma AppAction(action: Value, i: nat, k: nat, w: World)
    requires !action.Null? && IsApp(action)
    ensures |Step(action, i, k, w).scripts| == if HasGeometry(action) then 2 else 1
    ensures Step(action, i, k, w).scripts[0] == ActivateScript(Show(action, "name"))
    ensures !HasGeometry(action) ==>
      Step(action, i, k, w).results == [ActionResult(Label(Show(action, "name")), true, "App activated (no position/size specified).")]
  {
  }

  /** `close_browsers` tries each of the four browsers and records one
      success, whatever the executor answers. */
  lemma CloseBrowsers(action: Value, i: nat, k: nat, w: World)
    requires !action.Null? && IsText(Get(action, "type"), "close_browsers") && !IsApp(action)
    ensures Step(action, i, k, w).scripts ==
      [QuitScript("Safari"), QuitScript("Google Chrome"), QuitScript("Firefox"), QuitScript("Microsoft Edge")]
    ensures Step(action, i, k, w).results == [ActionResult(Label("close_browsers"), true, "Attempted to close browsers.")]
  {
    assert QuitScripts()[0] == QuitScript("Safari");
  }

  /** An action matching no branch issues nothing and records one failure. */
  lemma InvalidAction(action: Value, i: nat, k: nat, w: World)
    requires !action.Null? && !Recognised(action)
    ensures Step(action, i, k, w) == Outcome([], [ActionResult(Json(action), false, "Invalid action format.")])
  {
  }

  /** A failing mute records its own failure and then the caught rejection. */
  lemma MuteFailure(action: Value, i: nat, k: nat, w: World)
    requires !action.Null? && IsText(Get(action, "type"), "mute_volume") && !IsApp(action)
    requires w.exec(k, MuteScript).error.Some?
    ensures var r := Step(action, i, k, w).results;
      |r| == 2 && !r[0].success && !r[1].success
      && r[1].message == "Runtime error: " + w.exec(k, MuteScript).error.value
  {
  }

  // ---------------------------------------------------------------------
  // The main process state.

  /** How a request to run a scenario ends: nothing runs for a rejected URL
      or an unknown name; a name that does not decode throws out of the
      event handler; a lookup on a `null` scenario object rejects the call;
      otherwise the actions are replayed. */
  datatype RunOutcome =
    | Ignored
    | Uncaught(message: string)
    | Unknown
    | Rejected(message: string)
    | Finished(scripts: seq<string>, results: seq<ActionResult>)

  /** The value `loadScenarios` stores in `scenarios`. */
  function LoadedScenarios(file: ScenarioLoader.ScenarioFile): Value {
    match file
    case Missing => Obj(ScenarioLoader.DemoScenarios("https://www.electronjs.org"))
    case Unreadable => Obj([])
    case Parsed(json) => json
  }

  /** `runScenario(name)` against the scenario object. */
  function RunNamed(scenarios: Value, name: string, w: World): RunOutcome {
    if scenarios.Null? then Rejected("Cannot read properties of null (reading '" + name + "')")
    else
      var actions := Member(scenarios, name);
      if !IsArray(actions) then Unknown
      else
        var o := RunActions(actions.value.items, w);
        Finished(o.scripts, o.results)
  }

  /** The message of the URIError `decodeURIComponent` throws. */
  const UriMalformed := "URI malformed"

  class LegacyApp {
    /** The module-level `scenarios` object. */
    var scenarios: Value

    constructor()
      ensures scenarios == Obj([])
    {
      scenarios := Obj([]);
    }

    /** `loadScenarios()`: a missing file gives the demo scenarios, a file
        that cannot be read or parsed resets to `{}`. */
    method LoadScenarios(file: ScenarioLoader.ScenarioFile)
      modifies this
      ensures scenarios == LoadedScenarios(file)
    {
      match file
      case Missing =>
        scenarios := Obj(ScenarioLoader.DemoScenarios("https://www.electronjs.org"));
      case Unreadable =>
        scenarios := Obj([]);
      case Parsed(json) =>
        scenarios := json;
    }

    /** `runScenario(name)`: the actions are replayed one by one, each
        failure becoming a result. */
    method RunScenario(name: string, w: World) returns (r: RunOutcome)
      ensures r == RunNamed(scenarios, name, w)
      ensures r.Unknown? <==> !scenarios.Null? && !IsArray(Member(scenarios, name))
      ensures r.Finished? ==> |Member(scenarios, name).value.items| <= |r.results|
    {
      if scenarios.Null? {
        return Rejected("Cannot read properties of null (reading '" + name + "')");
      }
      var found := Member(scenarios, name);
      if !IsArray(found) {
        return Unknown;
      }
      var actions := found.value.items;
      var scripts: seq<string> := [];
      var results: seq<ActionResult> := [];
      var i := 0;
      while i < |actions|
        invariant 0 <= i <= |actions|
        invariant Outcome(scripts, results) == RunActions(actions[..i], w)
      {
        RunActionsNext(actions, i, w);
        var step := Step(actions[i], i, |scripts|, w);
        scripts := scripts + step.scripts;
        results := results + step.results;
        i := i + 1;
      }
      assert actions[..i] == actions;
      RunActionsShape(actions, w);
      return Finished(scripts, results);
    }

    /** The `open-url` event: a URL that names a scenario runs it; a name
        that does not decode throws the URIError out of the handler, uncaught;
        every other URL runs nothing. */
    method OpenUrl(url: string, w: World) returns (r: RunOutcome)
      ensures !Text.StartsWith(url, SchemePrefix) ==> r == Ignored
      ensures HandleUrl(url).Run? ==> r == RunNamed(scenarios, HandleUrl(url).name, w)
      ensures HandleUrl(url).BadEncoding? ==> r == Uncaught(UriMalformed)
      ensures HandleUrl(url).BadScheme? || HandleUrl(url).BadPath? ==> r == Ignored
    {
      HandleUrlScheme(url);
      match HandleUrl(url)
      case Run(name) =>
        r := RunScenario(name, w);
      case BadEncoding =>
        r := Uncaught(UriMalformed);
      case _ =>
        r := Ignored;
    }

    /** The `second-instance` event: the first scheme URL on the command
        line is handled; without one nothing runs. */
    method SecondInstance(commandLine: seq<string>, w: World) returns (r: RunOutcome)
      ensures PickUrl(commandLine).None? ==> r == Ignored
      ensures PickUrl(commandLine).Some? ==> r == RunNamedUrl(scenarios, PickUrl(commandLine).value, w)
    {
      match PickUrl(commandLine)
      case None =>
        r := Ignored;
      case Some(url) =>
        r := OpenUrl(url, w);
    }
  }

  /** What handling `url` does against the scenario object. */
  function RunNamedUrl(scenarios: Value, url: string, w: World): RunOutcome {
    match HandleUrl(url)
    case Run(name) => RunNamed(scenarios, name, w)
    case BadEncoding => Uncaught(UriMalformed)
    case _ => Ignored
  }
}
