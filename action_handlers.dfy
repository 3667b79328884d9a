/** `handleUniversalAction` of utils/action-handlers.js: one dispatcher for the
    markdown files, the stored scenarios, the stopwatch and the flow log. The
    flow log is a CSV file that gets its header only when it is created. */
module ActionHandlers {
  import opened Wrappers
  import Decimal
  import Text
  import JsValue
  import Stopwatch
  import ScenarioRunner

  /** The members of the payload the renderer sends; all are strings. */
  datatype Payload = Payload(filePath: string, content: string, scenarioName: string)

  /** What the caller passes along: the scenario list, if it has one, and
      the stopwatch manager to use instead of the module's own. */
  datatype Context = Context(scenarioList: Option<seq<JsValue.Value>>, stopwatchManager: Stopwatch.StopwatchManager?)

  /** The outside world of one call: the clock, `toLocaleString('zh-CN',
      { hour12: false })` of a clock reading, the displays, and the error a
      write of the log file fails with, if it fails. */
  datatype Env = Env(now: int, locale: int -> string, screen: ScenarioRunner.Screen, writeError: Option<string>)

  /** Reading a markdown file, rendered to HTML or raw. */
  datatype MarkdownOp = Render | ReadRaw

  /** What `handleUniversalAction` resolves with, or the message it rejects
      with. `FileRequest` stands for the text of the file read (rendered to
      HTML or raw); `Saved` for writing `content` to the file and resolving
      with `{ success: true, message }`. */
  datatype Reply =
    | FileRequest(op: MarkdownOp, filePath: string)
    | Saved(filePath: string, content: string, message: string)
    | Status(success: bool, message: string)
    | Running(isRunning: bool)
    | WidgetOpened
    | Logged(formattedDuration: string, message: string)
    | Threw(message: string)

  const SavedMessage := "File saved successfully."
  const NothingLogged := "Timer was 0, nothing logged."
  const NoScenarioList := "Scenario list unavailable"
  const Header := "Start Time,End Time,Duration (s),Formatted Duration\n"

  const ActionTypes: set<string> := {
    "read_markdown", "get_raw_markdown", "save_markdown", "run_scenario", "stopwatch_toggle",
    "stopwatch_reset", "stopwatch_open_widget", "finish_flow_session"
  }

  function UnknownAction(actionType: string): string {
    "Unknown action type: " + actionType
  }

  // ---------------------------------------------------------------------
  // Formatting a session.

  /** `${Math.floor(d / 60)}m ${d % 60}s`. */
  function DurationText(d: nat): string {
    (Decimal.NatToString(d / 60) + "m") + " " + (Decimal.NatToString(d % 60) + "s")
  }

  /** The duration text splits at its space into whole minutes and the
      remaining seconds, which read back as the duration. */
  lemma DurationTextFields(d: nat)
    ensures var parts := Text.Split(DurationText(d), " ");
      |parts| == 2 && |parts[0]| >= 2 && |parts[1]| >= 2
      && parts[0][|parts[0]| - 1] == 'm' && parts[1][|parts[1]| - 1] == 's'
    ensures var parts := Text.Split(DurationText(d), " ");
      var m := parts[0][..|parts[0]| - 1];
      var s := parts[1][..|parts[1]| - 1];
      Decimal.AllDigits(m) && Decimal.AllDigits(s)
      && Decimal.DigitsValue(s) < 60 && 60 * Decimal.DigitsValue(m) + Decimal.DigitsValue(s) == d
  {
    var m := Decimal.NatToString(d / 60);
    var s := Decimal.NatToString(d % 60);
    UnitLacks(m, 'm', ' ');
    UnitLacks(s, 's', ' ');
    Halves(m + "m", s + "s");
    assert (m + "m")[..|m|] == m;
    assert (s + "s")[..|s|] == s;
    Decimal.DigitsValueOfNatToString(d / 60);
    Decimal.DigitsValueOfNatToString(d % 60);
  }

  /** A digit string holds no character that is not a digit. */
  lemma DigitsLack(s: string, c: char)
    requires Decimal.AllDigits(s) && !Decimal.IsDigit(c)
    ensures c !in s
  {
    assert forall k :: 0 <= k < |s| ==> s[k] != c;
  }

  /** Two space-free texts joined by a space split back into the two. */
  lemma Halves(x: string, y: string)
    requires ' ' !in x && ' ' !in y
    ensures Text.Split(x + " " + y, " ") == [x, y]
  {
    Text.SplitAtSeparator(x, y, " ");
    Text.SplitWithout(y, " ");
  }

  /** A number followed by its unit letter holds no other non-digit. */
  lemma UnitLacks(n: string, unit: char, c: char)
    requires Decimal.AllDigits(n) && !Decimal.IsDigit(c) && c != unit
    ensures c !in n + [unit]
  {
    DigitsLack(n, c);
  }

  /** `formatDate`: the empty string for a missing date, otherwise the
      locale text with every `/` turned into `-`. */
  function FormatDate(date: Option<string>): (r: string)
    ensures date.None? ==> r == ""
    ensures date.Some? ==> |r| == |date.value|
    ensures date.Some? ==>
      forall k :: 0 <= k < |r| ==> r[k] == if date.value[k] == '/' then '-' else date.value[k]
    ensures '/' !in r
    ensures date.Some? && '/' !in date.value ==> r == date.value
  {
    if date.None? then ""
    else
      Text.ReplaceAllChar(date.value, '/', '-');
      Text.ReplaceAll(date.value, '/', "-")
  }

  /** One CSV row: start, end, seconds, formatted duration, newline. */
  function CsvRow(start: string, end: string, d: nat): string {
    start + "," + end + "," + Decimal.NatToString(d) + "," + DurationText(d) + "\n"
  }

  /** A row ends with a newline and, when the dates hold no comma, splits
      into exactly its four columns. */
  lemma CsvRowFields(start: string, end: string, d: nat)
    requires ',' !in start && ',' !in end
    ensures var row := CsvRow(start, end, d);
      row[|row| - 1] == '\n'
      && Text.Split(row[..|row| - 1], ",") == [start, end, Decimal.NatToString(d), DurationText(d)]
  {
    var n := Decimal.NatToString(d);
    DigitsLack(n, ',');
    DurationTextLacks(d, ',');
    Columns(start, end, n, DurationText(d));
  }

  /** The duration text is made of digits, the two unit letters and a space. */
  lemma DurationTextLacks(d: nat, c: char)
    requires !Decimal.IsDigit(c) && c != 'm' && c != 's' && c != ' '
    ensures c !in DurationText(d)
  {
    var m := Decimal.NatToString(d / 60);
    var s := Decimal.NatToString(d % 60);
    UnitLacks(m, 'm', c);
    UnitLacks(s, 's', c);
  }

  lemma Columns(a: string, b: string, c: string, e: string)
    requires ',' !in a && ',' !in b && ',' !in c && ',' !in e
    ensures var row := a + "," + b + "," + c + "," + e + "\n";
      row[|row| - 1] == '\n' && Text.Split(row[..|row| - 1], ",") == [a, b, c, e]
  {
    var row := a + "," + b + "," + c + "," + e + "\n";
    assert row[..|row| - 1] == a + "," + (b + "," + (c + "," + e));
    Text.SplitAtSeparator(a, b + "," + (c + "," + e), ",");
    Text.SplitAtSeparator(b, c + "," + e, ",");
    Text.SplitAtSeparator(c, e, ",");
    Text.SplitWithout(e, ",");
  }

  // ---------------------------------------------------------------------
  // The flow log.

  /** The log file after one session is logged: created with the header in
      front of the row, or the row appended. */
  function Appended(file: Option<string>, row: string): string {
    if file.None? then Header + row else file.value + row
  }

  function Concat(rows: seq<string>): string {
    if rows == [] then "" else rows[0] + Concat(rows[1..])
  }

  /** The log file after sessions are logged one after another. */
  function LogRows(file: Option<string>, rows: seq<string>): Option<string>
    decreases |rows|
  {
    if rows == [] then file
    else LogRows(Some(Appended(file, rows[0])), rows[1..])
  }

  /** A log created by the first session holds the header once, at the
      start, followed by every row in order; an existing log only grows by
      the rows. */
  lemma {:induction false} HeaderOnce(file: Option<string>, rows: seq<string>)
    requires rows != [] || file.Some?
    ensures file.None? ==> LogRows(file, rows) == Some(Header + Concat(rows))
    ensures file.Some? ==> LogRows(file, rows) == Some(file.value + Concat(rows))
    decreases |rows|
  {
    if rows == [] {
      assert Concat(rows) == "";
      assert file.value + "" == file.value;
    } else {
      var next := Appended(file, rows[0]);
      assert LogRows(file, rows) == LogRows(Some(next), rows[1..]);
      assert Concat(rows) == rows[0] + Concat(rows[1..]);
      if |rows| > 1 {
        HeaderOnce(Some(next), rows[1..]);
        assert next + Concat(rows[1..]) == (if file.None? then Header else file.value) + Concat(rows);
      } else {
        assert rows[1..] == [];
        assert LogRows(Some(next), []) == Some(next);
        assert Concat(rows) == rows[0] + "";
        assert rows[0] + "" == rows[0];
      }
    }
  }

  class FlowLog {
    /** The contents of flow_log.csv; `None` while it does not exist. */
    var content: Option<string>

    constructor(content0: Option<string>)
      ensures content == content0
    {
      content := content0;
    }

    /** The write step of `finish_flow_session`: a missing file is written
        with the header, an existing one appended to; a failed write leaves
        it as it was. */
    method Record(row: string, writeError: Option<string>) returns (error: Option<string>)
      modifies this
      ensures error == writeError
      ensures writeError.None? ==> content == Some(Appended(old(content), row))
      ensures writeError.Some? ==> content == old(content)
    {
      var fileExists := false;
      if content.Some? {
        fileExists := true;
      }
      if writeError.Some? {
        return writeError;
      }
      if !fileExists {
        content := Some(Header + row);
      } else {
        content := Some(content.value + row);
      }
      return None;
    }
  }

  /** `finish_flow_session` once the session is taken: a zero duration logs
      nothing; otherwise one row is logged, or the write error is reported. */
  function Finish(session: Stopwatch.Session, env: Env, file: Option<string>): (r: (Reply, Option<string>))
    ensures session.duration == 0 ==> r == (Status(false, NothingLogged), file)
    ensures session.duration > 0 && env.writeError.None? ==>
      r.0 == Logged(DurationText(session.duration), "Logged: " + DurationText(session.duration))
    ensures session.duration > 0 && env.writeError.None? ==> r.1 == Some(Appended(file, SessionRow(session, env)))
    ensures session.duration > 0 && env.writeError.Some? ==>
      r == (Threw("Failed to write log: " + env.writeError.value), file)
    ensures r.1 == file || r.1 == Some(Appended(file, SessionRow(session, env)))
  {
    if session.duration == 0 then (Status(false, NothingLogged), file)
    else
      var durationStr := DurationText(session.duration);
      match env.writeError
      case Some(e) => (Threw("Failed to write log: " + e), file)
      case None => (Logged(durationStr, "Logged: " + durationStr), Some(Appended(file, SessionRow(session, env))))
  }

  function SessionRow(session: Stopwatch.Session, env: Env): string {
    CsvRow(FormatDate(Some(env.locale(session.startTime))), FormatDate(Some(env.locale(session.endTime))), session.duration)
  }

  // ---------------------------------------------------------------------
  // The dispatcher.

  /** `context.stopwatchManager || stopwatchManager`. */
  function Chosen(context: Context, singleton: Stopwatch.StopwatchManager): Stopwatch.StopwatchManager {
    if context.stopwatchManager != null then context.stopwatchManager else singleton
  }

  /** `handleUniversalAction(actionType, payload, context)`, with the module's
      stopwatch `singleton`, the scenario runner's module state and the log
      file. */
  method HandleUniversalAction(actionType: string, payload: Payload, context: Context,
                               singleton: Stopwatch.StopwatchManager, runner: ScenarioRunner.Runner,
                               log: FlowLog, env: Env)
    returns (reply: Reply)
    requires Chosen(context, singleton).Valid()
    modifies Chosen(context, singleton), runner, log
    ensures Chosen(context, singleton).Valid()
    ensures actionType !in {"stopwatch_toggle", "stopwatch_reset", "finish_flow_session"} ==>
      Chosen(context, singleton).Snapshot() == old(Chosen(context, singleton).Snapshot())
    ensures actionType !in ActionTypes ==> reply == Threw(UnknownAction(actionType))
    ensures actionType !in {"run_scenario"} ==> runner.State() == old(runner.State())
    ensures actionType !in {"finish_flow_session"} ==> log.content == old(log.content)
    ensures actionType == "read_markdown" ==> reply == FileRequest(Render, payload.filePath)
    ensures actionType == "get_raw_markdown" ==> reply == FileRequest(ReadRaw, payload.filePath)
    ensures actionType == "save_markdown" ==> reply == Saved(payload.filePath, payload.content, SavedMessage)
    ensures actionType == "run_scenario" && context.scenarioList.None? ==> reply == Threw(NoScenarioList)
    ensures actionType == "run_scenario" && context.scenarioList.Some? ==>
      var (run, state) := ScenarioRunner.RunNamed(old(runner.State()), payload.scenarioName, context.scenarioList.value, env.screen);
      runner.State() == state &&
      reply == if run.Threw? then Threw(run.message) else Status(true, "Stored scenario '" + payload.scenarioName + "' executed.")
    ensures actionType == "stopwatch_toggle" ==>
      Chosen(context, singleton).Snapshot() == Stopwatch.Toggled(old(Chosen(context, singleton).Snapshot()), env.now)
      && reply == Running(Chosen(context, singleton).isRunning)
    ensures actionType == "stopwatch_reset" ==>
      Chosen(context, singleton).Snapshot() == Stopwatch.Cleared && reply == Running(false)
    ensures actionType == "stopwatch_open_widget" ==> reply == WidgetOpened
    ensures actionType == "finish_flow_session" ==>
      var session := Stopwatch.Session(old(Chosen(context, singleton).seconds),
                                       old(Chosen(context, singleton).startTime).GetOr(env.now), env.now);
      Chosen(context, singleton).Snapshot() == Stopwatch.Cleared
      && (reply, log.content) == Finish(session, env, old(log.content))
  {
    var manager := Chosen(context, singleton);
    if actionType == "read_markdown" {
      reply := FileRequest(Render, payload.filePath);
    } else if actionType == "get_raw_markdown" {
      reply := FileRequest(ReadRaw, payload.filePath);
    } else if actionType == "save_markdown" {
      reply := Saved(payload.filePath, payload.content, SavedMessage);
    } else if actionType == "run_scenario" {
      if context.scenarioList.None? {
        return Threw(NoScenarioList);
      }
      var run := runner.RunScenario(payload.scenarioName, context.scenarioList.value, env.screen);
      if run.Threw? {
        return Threw(run.message);
      }
      reply := Status(true, "Stored scenario '" + payload.scenarioName + "' executed.");
    } else if actionType == "stopwatch_toggle" {
      var running := manager.Toggle(env.now);
      reply := Running(running);
    } else if actionType == "stopwatch_reset" {
      var running := manager.Reset();
      reply := Running(running);
    } else if actionType == "stopwatch_open_widget" {
      reply := WidgetOpened;
    } else if actionType == "finish_flow_session" {
      var session := manager.StopAndGetDuration(env.now);
      if session.duration == 0 {
        return Status(false, NothingLogged);
      }
      var durationStr := DurationText(session.duration);
      var startTimeStr := FormatDate(Some(env.locale(session.startTime)));
      var endTimeStr := FormatDate(Some(env.locale(session.endTime)));
      var csvRow := CsvRow(startTimeStr, endTimeStr, session.duration);
      var error := log.Record(csvRow, env.writeError);
      if error.Some? {
        return Threw("Failed to write log: " + error.value);
      }
      reply := Logged(durationStr, "Logged: " + durationStr);
    } else {
      reply := Threw(UnknownAction(actionType));
    }
  }
}
