/** `runScenario` of utils/scenario-runner.js: the scenario is looked up in
    the scenario list, its actions are replayed in order, and a `menu` action
    opens, or reuses, a frameless note window in the top-right corner of a
    display, kept in the `markdownNoteWindows` registry until it closes. */
module ScenarioRunner {
  import opened Wrappers
  import opened JsValue
  import Decimal
  import MenuAction
  import LegacyMain

  const DefaultWidth := 800
  const DefaultHeight := 600

  const DirectNoteMessage := "Direct show_markdown_note is currently handled via menu actions."
  const InvalidMessage := "Invalid or unsupported action format."

  /** The TypeError of `.find` called on an `actions` that is neither an
      array nor `null`/`undefined`. */
  const FindNotFunction := "action.items[0]?.actions?.find is not a function"

  const ChromeQuit := "tell application \"Google Chrome\" to quit"

  type ActionResult = LegacyMain.ActionResult

  // ---------------------------------------------------------------------
  // Displays and placement.

  datatype Rect = Rect(x: int, y: int, width: int, height: int)

  datatype Display = Display(id: int, workArea: Rect)

  /** `screen.getAllDisplays()` and `screen.getPrimaryDisplay()`, read during a run. */
  datatype Screen = Screen(displays: seq<Display>, primary: Display)

  /** The index `parseInt(display, 10)` names, or -1 when the primary
      display is to be used. */
  function DisplayIndex(display: Option<Value>, count: nat): (r: int)
    ensures -1 <= r < count
  {
    if display.None? then -1
    else
      match Decimal.ParseInt(ToJsString(display))
      case Some(n) => if 0 <= n < count then n else -1
      case None => -1
  }

  /** The display a note window is placed on. */
  function TargetDisplay(display: Option<Value>, screen: Screen): Display {
    var i := DisplayIndex(display, |screen.displays|);
    if i < 0 then screen.primary else screen.displays[i]
  }

  /** `display` given as the number `n` of an existing display selects it. */
  lemma DisplayOfIndex(n: int, screen: Screen)
    requires 0 <= n < |screen.displays|
    ensures TargetDisplay(Some(Num(n)), screen) == screen.displays[n]
  {
    Decimal.ParseIntOfIntToString(n);
  }

  /** An absent `display`, one that does not parse, and one out of range,
      all fall back to the primary display; a parsed index in range is used. */
  lemma DisplayFallback(display: Option<Value>, screen: Screen)
    ensures display.None? ==> TargetDisplay(display, screen) == screen.primary
    ensures display.Some? && Decimal.ParseInt(ToJsString(display)).None? ==>
      TargetDisplay(display, screen) == screen.primary
    ensures display.Some? && Decimal.ParseInt(ToJsString(display)).Some? ==>
      var n := Decimal.ParseInt(ToJsString(display)).value;
      TargetDisplay(display, screen) == if 0 <= n < |screen.displays| then screen.displays[n] else screen.primary
  {
  }

  /** Where a note window is, and the size it was given. `x` is `None` when
      the width is not a number. */
  datatype Bounds = Bounds(x: Option<int>, y: int, width: Value, height: Value)

  /** `x = workArea.x + workArea.width - width`, `y = workArea.y`. */
  function TopRight(area: Rect, width: Value, height: Value): (b: Bounds)
    ensures b.width == width && b.height == height
  {
    Bounds(if width.Num? then Some(area.x + area.width - width.n) else None, area.y, width, height)
  }

  /** The window's right edge is the work area's right edge and its top edge
      the work area's top edge; a window no wider than the work area lies
      within it horizontally. */
  lemma TopRightCorner(area: Rect, w: int, height: Value)
    ensures var b := TopRight(area, Num(w), height);
      b.x.Some? && b.x.value + w == area.x + area.width && b.y == area.y
    ensures 0 <= w <= area.width ==>
      var b := TopRight(area, Num(w), height);
      area.x <= b.x.value && b.x.value + w <= area.x + area.width
  {
  }

  // ---------------------------------------------------------------------
  // The registry of note windows.

  datatype NoteWindow = NoteWindow(id: nat, bounds: Bounds)

  /** `markdownNoteWindows`, and how many note windows have been created. */
  datatype RunnerState = RunnerState(windows: map<string, NoteWindow>, created: nat)

  /** Every registered window was created before and is registered once. */
  predicate Tracked(s: RunnerState) {
    && (forall n :: n in s.windows ==> s.windows[n].id < s.created)
    && (forall n, m :: n in s.windows && m in s.windows && n != m ==> s.windows[n].id != s.windows[m].id)
  }

  /** The note action `action.items[0]?.actions?.find(a => a.type === 'show_markdown_note')`. */
  predicate IsNoteType(a: Value) {
    IsText(Get(a, "type"), "show_markdown_note")
  }

  /** `action.items[0]?.actions`. */
  function FirstItemActions(items: seq<Value>): Option<Value> {
    GetOpt(if items == [] then None else Some(items[0]), "actions")
  }

  function FirstItemAction(items: seq<Value>): (r: Result<Option<Value>>)
    ensures r.Success? && r.value.Some? ==> IsNoteType(r.value.value)
  {
    var actions := FirstItemActions(items);
    if actions.None? || actions.value.Null? then Success(None)
    else if !actions.value.Arr? then Failure(FindNotFunction)
    else
      match Find(actions.value.items, IsNoteType)
      case FoundAt(k) => Success(Some(actions.value.items[k]))
      case NotFound => Success(None)
      case NullAt(_) => Failure(NullRead("type"))
  }

  /** The action found is the first `show_markdown_note` action of the first
      item's actions; none is found only when none of them is one; and the
      search throws exactly when `actions` is neither missing, `null` nor an
      array, or a `null` comes before the first note action. */
  lemma FirstItemActionFirst(items: seq<Value>)
    ensures var r := FirstItemAction(items);
      r.Success? && r.value.Some? ==>
        var actions := FirstItemActions(items);
        actions.Some? && actions.value.Arr? &&
        exists k :: 0 <= k < |actions.value.items| && actions.value.items[k] == r.value.value
          && forall j :: 0 <= j < k ==> Passes(actions.value.items, j, IsNoteType)
    ensures FirstItemAction(items) == Success(None) && FirstItemActions(items).Some? && FirstItemActions(items).value.Arr? ==>
      forall j :: 0 <= j < |FirstItemActions(items).value.items| ==> Passes(FirstItemActions(items).value.items, j, IsNoteType)
    ensures FirstItemAction(items).Failure? <==>
      var actions := FirstItemActions(items);
      actions.Some? && !actions.value.Null? && (!actions.value.Arr? || Find(actions.value.items, IsNoteType).NullAt?)
  {
  }

  /** The window a `menu` action creates, sized by the first item's note
      action (800 x 600 by default) and placed top-right. */
  function NewWindow(id: nat, first: Option<Value>, screen: Screen): (w: NoteWindow)
    ensures w.id == id
  {
    var width := OrElse(GetOpt(first, "width"), Num(DefaultWidth));
    var height := OrElse(GetOpt(first, "height"), Num(DefaultHeight));
    NoteWindow(id, TopRight(TargetDisplay(GetOpt(first, "display"), screen).workArea, width, height))
  }

  /** Without a note action in the first item, the window is 800 x 600. */
  lemma NewWindowDefaults(id: nat, screen: Screen)
    ensures NewWindow(id, None, screen).bounds.width == Num(DefaultWidth)
    ensures NewWindow(id, None, screen).bounds.height == Num(DefaultHeight)
    ensures NewWindow(id, None, screen).bounds.y == screen.primary.workArea.y
  {
  }

  /** `window.setSize(width, height)`, whose failure on non-numbers is caught. */
  function Resized(w: NoteWindow, f: MenuAction.FirstItem): NoteWindow {
    if f.width.Num? && f.height.Num? then w.(bounds := w.bounds.(width := f.width, height := f.height)) else w
  }

  /** What `handleMenuAction` does to the registered window: a throw closes it,
      which deletes it from the registry; a recorded note resizes it. */
  function AfterMenu(s: RunnerState, name: string, items: seq<Value>): (t: RunnerState)
    requires name in s.windows
    ensures t.created == s.created
  {
    match MenuAction.ScanMenu(items)
    case Failure(_) => s.(windows := s.windows - {name})
    case Success(None) => s
    case Success(Some(f)) => s.(windows := s.windows[name := Resized(s.windows[name], f)])
  }

  // ---------------------------------------------------------------------
  // One action.

  /** The scripts and results of a run so far, and the registry after it. */
  datatype Stepped = Stepped(state: RunnerState, scripts: seq<string>, results: seq<ActionResult>)

  predicate IsMenu(action: Value) {
    IsText(Get(action, "type"), "menu") && IsArray(Get(action, "items"))
  }

  predicate IsDirectNote(action: Value) {
    IsText(Get(action, "type"), "show_markdown_note") && Truthy(Get(action, "file_path"))
  }

  /** The script an `app`, `url`, `close_browsers` or `close_app` action
      issues; the application name is inserted without quotes. */
  function ScriptFor(action: Value): (r: Option<string>)
    ensures r.Some? <==>
      LegacyMain.IsApp(action) || LegacyMain.IsUrl(action) || IsText(Get(action, "type"), "close_browsers")
      || (IsText(Get(action, "type"), "close_app") && Truthy(Get(action, "name")))
  {
    if LegacyMain.IsApp(action) then Some("tell application " + LegacyMain.Show(action, "name") + " to activate")
    else if LegacyMain.IsUrl(action) then Some("open location \"" + LegacyMain.Show(action, "url") + "\"")
    else if IsText(Get(action, "type"), "close_browsers") then Some(ChromeQuit)
    else if IsText(Get(action, "type"), "close_app") && Truthy(Get(action, "name")) then
      Some("tell application " + LegacyMain.Show(action, "name") + " to quit ")
    else None
  }

  function Failed(action: Value, message: string): ActionResult {
    LegacyMain.ActionResult(LegacyMain.Json(action), false, message)
  }

  /** A `menu` action for the scenario `name`. */
  function MenuStep(s: RunnerState, name: string, action: Value, screen: Screen): Stepped
    requires IsMenu(action)
  {
    var items := Get(action, "items").value.items;
    if name in s.windows then Stepped(AfterMenu(s, name, items), [], [])
    else
      match FirstItemAction(items)
      case Failure(m) => Stepped(s, [], [LegacyMain.RuntimeError(action, m)])
      case Success(first) =>
        var registered := s.(windows := s.windows[name := NewWindow(s.created, first, screen)], created := s.created + 1);
        Stepped(AfterMenu(registered, name, items), [], [])
  }

  /** One iteration of the loop of `runScenario`. */
  function Step(s: RunnerState, name: string, action: Value, screen: Screen): Stepped {
    if action.Null? then Stepped(s, [], [LegacyMain.RuntimeError(action, NullRead("type"))])
    else if IsMenu(action) then MenuStep(s, name, action, screen)
    else if IsDirectNote(action) then Stepped(s, [], [Failed(action, DirectNoteMessage)])
    else
      match ScriptFor(action)
      case Some(script) => Stepped(s, [script], [])
      case None => Stepped(s, [], [Failed(action, InvalidMessage)])
  }

  /** The actions of a run, from the registry `s`. */
  function RunActions(s: RunnerState, name: string, actions: seq<Value>, screen: Screen): Stepped {
    if actions == [] then Stepped(s, [], [])
    else
      var before := RunActions(s, name, actions[..|actions| - 1], screen);
      Then(before, Step(before.state, name, actions[|actions| - 1], screen))
  }

  /** A run followed by what comes after it, from the state it ends in. */
  function Then(before: Stepped, after: Stepped): Stepped {
    Stepped(after.state, before.scripts + after.scripts, before.results + after.results)
  }

  /** `scenarioList.find(s => s.name === scenarioName)` followed by the test
      of `actions`: the actions to run, nothing, or the TypeError of a `null`
      met before the scenario. */
  function ScenarioActions(scenarioList: seq<Value>, name: string): Result<Option<seq<Value>>> {
    match Find(scenarioList, v => IsText(Get(v, "name"), name))
    case NullAt(_) => Failure(NullRead("name"))
    case NotFound => Success(None)
    case FoundAt(k) =>
      var actions := Get(scenarioList[k], "actions");
      if IsArray(actions) then Success(Some(actions.value.items)) else Success(None)
  }

  /** What a call of `runScenario` ends with. */
  datatype RunResult = NotRun | Threw(message: string) | Ran(scripts: seq<string>, results: seq<ActionResult>)

  /** A whole run: its result and the registry after it. */
  function RunNamed(s: RunnerState, name: string, scenarioList: seq<Value>, screen: Screen): (RunResult, RunnerState) {
    match ScenarioActions(scenarioList, name)
    case Failure(m) => (Threw(m), s)
    case Success(None) => (NotRun, s)
    case Success(Some(actions)) =>
      var run := RunActions(s, name, actions, screen);
      (Ran(run.scripts, run.results), run.state)
  }

  // ---------------------------------------------------------------------
  // The module state and the loop.

  class Runner {
    /** The module-level `markdownNoteWindows` map. */
    var windows: map<string, NoteWindow>
    /** How many note windows were created; the next one gets this number. */
    var created: nat

    function State(): RunnerState
      reads this
    {
      RunnerState(windows, created)
    }

    constructor()
      ensures windows == map[] && created == 0
    {
      windows := map[];
      created := 0;
    }

    /** `runScenario(scenarioName, scenarioList)`. */
    method RunScenario(scenarioName: string, scenarioList: seq<Value>, screen: Screen) returns (r: RunResult)
      modifies this
      ensures (r, State()) == RunNamed(old(State()), scenarioName, scenarioList, screen)
      ensures r.NotRun? <==> ScenarioActions(scenarioList, scenarioName) == Success(None)
      ensures Tracked(old(State())) ==> Tracked(State())
    {
      match ScenarioActions(scenarioList, scenarioName)
      case Failure(m) =>
        return Threw(m);
      case Success(None) =>
        return NotRun;
      case Success(Some(actions)) =>
        ghost var s0 := State();
        var scripts: seq<string> := [];
        var results: seq<ActionResult> := [];
        var i := 0;
        while i < |actions|
          invariant 0 <= i <= |actions|
          invariant Stepped(State(), scripts, results) == RunActions(s0, scenarioName, actions[..i], screen)
          invariant Tracked(s0) ==> Tracked(State())
        {
          RunActionsNext(s0, scenarioName, actions, i, screen);
          if Tracked(State()) {
            StepTracked(State(), scenarioName, actions[i], screen);
          }
          var stepScripts, stepResults := Perform(scenarioName, actions[i], screen);
          scripts := scripts + stepScripts;
          results := results + stepResults;
          i := i + 1;
        }
        assert actions[..i] == actions;
        return Ran(scripts, results);
    }

    /** The body of the loop for one action. */
    method Perform(scenarioName: string, action: Value, screen: Screen)
      returns (scripts: seq<string>, results: seq<ActionResult>)
      modifies this
      ensures Stepped(State(), scripts, results) == Step(old(State()), scenarioName, action, screen)
    {
      scripts, results := [], [];
      if action.Null? {
        results := [LegacyMain.RuntimeError(action, NullRead("type"))];
      } else if IsMenu(action) {
        results := OpenMenu(scenarioName, action, screen);
      } else if IsDirectNote(action) {
        results := [Failed(action, DirectNoteMessage)];
      } else {
        match ScriptFor(action)
        case Some(script) =>
          scripts := [script];
        case None =>
          results := [Failed(action, InvalidMessage)];
      }
    }

    /** The `menu` branch: reuse the scenario's window or create and register
        one, then let `handleMenuAction` fill it. */
    method OpenMenu(scenarioName: string, action: Value, screen: Screen) returns (results: seq<ActionResult>)
      requires IsMenu(action)
      modifies this
      ensures Stepped(State(), [], results) == MenuStep(old(State()), scenarioName, action, screen)
    {
      var items := Get(action, "items").value.items;
      results := [];
      if scenarioName !in windows {
        var firstItemAction := FirstItemAction(items);
        if firstItemAction.Failure? {
          return [LegacyMain.RuntimeError(action, firstItemAction.error)];
        }
        windows := windows[scenarioName := NewWindow(created, firstItemAction.value, screen)];
        created := created + 1;
      }
      FillWindow(scenarioName, items);
    }

    /** `handleMenuAction` on the scenario's window: resized to the first
        note found, or closed (and so unregistered) when the scan throws. */
    method FillWindow(scenarioName: string, items: seq<Value>)
      requires scenarioName in windows
      modifies this
      ensures State() == AfterMenu(old(State()), scenarioName, items)
    {
      var scan := MenuAction.Navigate(items);
      if scan.Failure? {
        windows := windows - {scenarioName};
      } else if scan.value.Some? {
        windows := windows[scenarioName := Resized(windows[scenarioName], scan.value.value)];
      }
    }

    /** The `closed` event of the scenario's note window. */
    method WindowClosed(scenarioName: string)
      modifies this
      ensures windows == old(windows) - {scenarioName} && created == old(created)
      ensures Tracked(old(State())) ==> Tracked(State())
    {
      windows := windows - {scenarioName};
    }
  }

  // ---------------------------------------------------------------------
  // Properties.

  lemma RunActionsNext(s: RunnerState, name: string, actions: seq<Value>, i: nat, screen: Screen)
    requires i < |actions|
    ensures var before := RunActions(s, name, actions[..i], screen);
      RunActions(s, name, actions[..i + 1], screen) == Then(before, Step(before.state, name, actions[i], screen))
  {
    var prefix := actions[..i + 1];
    assert prefix[..|prefix| - 1] == actions[..i] && prefix[|prefix| - 1] == actions[i];
  }

  /** Every action keeps the registry consistent. */
  lemma StepTracked(s: RunnerState, name: string, action: Value, screen: Screen)
    requires Tracked(s)
    ensures Tracked(Step(s, name, action, screen).state)
  {
    if !action.Null? && IsMenu(action) {
      var items := Get(action, "items").value.items;
      if name !in s.windows {
        match FirstItemAction(items)
        case Failure(_) =>
        case Success(first) =>
          var registered := s.(windows := s.windows[name := NewWindow(s.created, first, screen)], created := s.created + 1);
          assert Tracked(registered);
          AfterMenuTracked(registered, name, items);
      } else {
        AfterMenuTracked(s, name, items);
      }
    }
  }

  lemma AfterMenuTracked(s: RunnerState, name: string, items: seq<Value>)
    requires name in s.windows && Tracked(s)
    ensures Tracked(AfterMenu(s, name, items))
  {
  }

  /** What one action contributes. Only a `null` action, a thrown error in
      the `menu` branch, a direct `show_markdown_note` and an unrecognised
      action add a result, always a failure about that action; the `app`,
      `url`, `close_browsers` and `close_app` actions add exactly their script;
      only a `menu` action touches the registry. */
  lemma StepEffects(s: RunnerState, name: string, action: Value, screen: Screen)
    ensures var r := Step(s, name, action, screen);
      |r.scripts| + |r.results| <= 1
    ensures var r := Step(s, name, action, screen);
      r.results != [] ==> r.results[0].action == LegacyMain.Json(action) && !r.results[0].success
    ensures var r := Step(s, name, action, screen);
      action.Null? || !IsMenu(action) ==> r.state == s
    ensures !action.Null? && IsMenu(action) ==> Step(s, name, action, screen).scripts == []
    ensures !action.Null? && IsMenu(action) ==>
      (Step(s, name, action, screen).results != [] <==>
       name !in s.windows && FirstItemAction(Get(action, "items").value.items).Failure?)
    ensures var r := Step(s, name, action, screen);
      !action.Null? && !IsMenu(action) && !IsDirectNote(action) && ScriptFor(action).Some? ==>
        r.scripts == [ScriptFor(action).value] && r.results == []
    ensures var r := Step(s, name, action, screen);
      !action.Null? && !IsMenu(action) && !IsDirectNote(action) && ScriptFor(action).None? ==>
        r.scripts == [] && r.results == [Failed(action, InvalidMessage)]
  {
  }

  /** A live window registered for the scenario is reused: no window is
      created and, unless `handleMenuAction` throws and closes it, the same
      window stays registered. */
  lemma MenuReusesWindow(s: RunnerState, name: string, action: Value, screen: Screen)
    requires !action.Null? && IsMenu(action) && name in s.windows
    ensures var t := Step(s, name, action, screen).state;
      t.created == s.created &&
      (MenuAction.ScanMenu(Get(action, "items").value.items).Success? ==> name in t.windows && t.windows[name].id == s.windows[name].id)
  {
  }

  /** Without a registered window a new one, numbered `created`, is stored
      under the scenario name; a throw while filling it closes it, which
      deletes the entry. */
  lemma MenuCreatesWindow(s: RunnerState, name: string, action: Value, screen: Screen)
    requires !action.Null? && IsMenu(action) && name !in s.windows
    requires FirstItemAction(Get(action, "items").value.items).Success?
    ensures var t := Step(s, name, action, screen).state;
      t.created == s.created + 1 &&
      (MenuAction.ScanMenu(Get(action, "items").value.items).Success? <==> name in t.windows) &&
      (name in t.windows ==> t.windows[name].id == s.created)
    ensures forall n :: n != name ==> (n in Step(s, name, action, screen).state.windows <==> n in s.windows)
  {
  }

  /** A run in two parts: the scripts and results of the earlier actions
      come first. */
  lemma {:induction false} RunActionsAppend(s: RunnerState, name: string, xs: seq<Value>, ys: seq<Value>, screen: Screen)
    ensures var first := RunActions(s, name, xs, screen);
      RunActions(s, name, xs + ys, screen) == Then(first, RunActions(first.state, name, ys, screen))
    decreases |ys|
  {
    var first := RunActions(s, name, xs, screen);
    if ys == [] {
      assert xs + ys == xs;
      ThenEmpty(first);
    } else {
      var init, last := ys[..|ys| - 1], ys[|ys| - 1];
      var whole := xs + ys;
      assert whole[..|whole| - 1] == xs + init && whole[|whole| - 1] == last;
      RunActionsAppend(s, name, xs, init, screen);
      var mid := RunActions(first.state, name, init, screen);
      var step := Step(mid.state, name, last, screen);
      RunActionsLast(s, name, whole, screen);
      RunActionsLast(first.state, name, ys, screen);
      ThenAssoc(first, mid, step);
    }
  }

  lemma RunActionsLast(s: RunnerState, name: string, actions: seq<Value>, screen: Screen)
    requires actions != []
    ensures var before := RunActions(s, name, actions[..|actions| - 1], screen);
      RunActions(s, name, actions, screen) == Then(before, Step(before.state, name, actions[|actions| - 1], screen))
  {
  }

  lemma ThenEmpty(a: Stepped)
    ensures Then(a, Stepped(a.state, [], [])) == a
  {
    assert a.scripts + [] == a.scripts && a.results + [] == a.results;
  }

  lemma ThenAssoc(a: Stepped, b: Stepped, c: Stepped)
    ensures Then(Then(a, b), c) == Then(a, Then(b, c))
  {
    assert a.scripts + b.scripts + c.scripts == a.scripts + (b.scripts + c.scripts);
    assert a.results + b.results + c.results == a.results + (b.results + c.results);
  }

  /** Each action adds at most one script or one result, so a run has no
      more of them together than it has actions. */
  lemma {:induction false} RunActionsCount(s: RunnerState, name: string, actions: seq<Value>, screen: Screen)
    ensures var r := RunActions(s, name, actions, screen);
      |r.scripts| + |r.results| <= |actions|
    decreases |actions|
  {
    if actions != [] {
      var before := RunActions(s, name, actions[..|actions| - 1], screen);
      RunActionsCount(s, name, actions[..|actions| - 1], screen);
      StepEffects(before.state, name, actions[|actions| - 1], screen);
    }
  }

  /** A run of actions that each issue a script reports no result and leaves
      the registry alone. */
  lemma {:induction false} ScriptedRun(s: RunnerState, name: string, actions: seq<Value>, screen: Screen)
    requires forall i :: 0 <= i < |actions| ==> !actions[i].Null? && !IsMenu(actions[i])
    requires forall i :: 0 <= i < |actions| ==> !IsDirectNote(actions[i]) && ScriptFor(actions[i]).Some?
    ensures RunActions(s, name, actions, screen).results == []
    ensures RunActions(s, name, actions, screen).state == s
    ensures |RunActions(s, name, actions, screen).scripts| == |actions|
    decreases |actions|
  {
    if actions != [] {
      var init := actions[..|actions| - 1];
      ScriptedRun(s, name, init, screen);
      StepEffects(s, name, actions[|actions| - 1], screen);
    }
  }
}
