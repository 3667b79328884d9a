/** `runAppleScript`: the script is embedded in an `osascript -e "..."`
    shell command, the command is handed to the executor, and the executor's
    `(error, stdout, stderr)` decides what the optional callback receives. */
module AppleScript {
  import opened Wrappers
  import Text

  /** What the executor reports for one command: the message of its error
      object, if it raised one, and the two output streams. */
  datatype ExecResult = ExecResult(error: Option<string>, stdout: string, stderr: string)

  /** The arguments of one callback invocation: `callback(error, output)`. */
  datatype Reply = Reply(err: Option<string>, output: string)

  /** `script.replace(/"/g, '\\"')`. */
  function Escape(script: string): string {
    Text.ReplaceAll(script, '"', "\\\"")
  }

  /** Removes the backslash in front of each quote, reading left to right. */
  function Unescape(s: string): string {
    if |s| >= 2 && s[0] == '\\' && s[1] == '"' then ['"'] + Unescape(s[2..])
    else if s == [] then []
    else [s[0]] + Unescape(s[1..])
  }

  /** In the escaped text every quote has a backslash in front of it. */
  lemma {:induction false} EscapeGuardsQuotes(script: string)
    ensures forall i :: 0 <= i < |Escape(script)| && Escape(script)[i] == '"' ==> i > 0 && Escape(script)[i - 1] == '\\'
  {
    if script != [] {
      var r := Escape(script);
      var h := if script[0] == '"' then "\\\"" else [script[0]];
      var t := Escape(script[1..]);
      EscapeGuardsQuotes(script[1..]);
      assert r == h + t;
      forall i | 0 <= i < |r| && r[i] == '"' ensures i > 0 && r[i - 1] == '\\' {
        if i >= |h| {
          assert r[i] == t[i - |h|];
          if i > |h| { assert r[i - 1] == t[i - 1 - |h|]; }
        }
      }
    }
  }

  /** Removing the backslash before each quote recovers the script. */
  lemma {:induction false} UnescapeEscape(script: string)
    ensures Unescape(Escape(script)) == script
  {
    if script != [] {
      var h := if script[0] == '"' then "\\\"" else [script[0]];
      var t := Escape(script[1..]);
      assert Escape(script) == h + t;
      UnescapeEscape(script[1..]);
      EscapeGuardsQuotes(script[1..]);
      if script[0] == '"' {
        assert (h + t)[2..] == t;
      } else {
        assert t != [] ==> t[0] != '"';
        assert (h + t)[1..] == t;
      }
      assert script == [script[0]] + script[1..];
    }
  }

  const CommandPrefix: string := "osascript -e \""

  /** The shell command `osascript -e "<escaped script>"`. */
  function Command(script: string): (cmd: string)
    ensures Text.StartsWith(cmd, CommandPrefix) && |cmd| > |CommandPrefix| && cmd[|cmd| - 1] == '"'
    ensures Unescape(cmd[|CommandPrefix|..|cmd| - 1]) == script
  {
    UnescapeEscape(script);
    var cmd := CommandPrefix + Escape(script) + "\"";
    assert cmd[|CommandPrefix|..|cmd| - 1] == Escape(script);
    cmd
  }

  /** The callback invocations one finished command leads to. An error
      reaches the callback with stderr; otherwise stdout is passed with no
      error, and a non-empty stderr is only logged as a warning. */
  function Replies(r: ExecResult, hasCallback: bool): (calls: seq<Reply>)
    ensures |calls| == if hasCallback then 1 else 0
    ensures forall k :: 0 <= k < |calls| ==> (calls[k].err.Some? <==> r.error.Some?)
    ensures r.error.Some? ==> forall k :: 0 <= k < |calls| ==> calls[k] == Reply(r.error, r.stderr)
    ensures r.error.None? ==> forall k :: 0 <= k < |calls| ==> calls[k] == Reply(None, r.stdout)
  {
    if !hasCallback then []
    else if r.error.Some? then [Reply(r.error, r.stderr)]
    else [Reply(None, r.stdout)]
  }

  /** The executor's outcome is only advisory: stderr was written but no error raised. */
  predicate IsWarning(r: ExecResult) {
    r.error.None? && r.stderr != ""
  }

  /** A warning never turns into a failure for the caller. */
  lemma WarningIsSuccess(r: ExecResult)
    requires IsWarning(r)
    ensures Replies(r, true) == [Reply(None, r.stdout)]
  {
  }

  /** `err.message || output`, the text the scenario runners put into a
      failure message. */
  function FailureText(r: ExecResult): (t: string)
    requires r.error.Some?
    ensures r.error.value != "" ==> t == r.error.value
    ensures r.error.value == "" ==> t == r.stderr
  {
    var reply := Replies(r, true)[0];
    if reply.err.value != "" then reply.err.value else reply.output
  }

  // ---------------------------------------------------------------------
  // How /bin/sh reads the double-quoted word of the command.

  /** The argument the shell builds from the text after the opening quote of
      a double-quoted word, when that word is the rest of the command. A
      backslash quotes the next character only before `$`, a backtick, `"`,
      `\` or a newline (backslash-newline disappears); an unquoted backtick,
      or an unquoted `$` before a character that starts an expansion, starts
      an expansion, whose result is not the text itself (`None`), as is a
      word that ends before the end of the command. Any other `$` is kept. */
  function ShellWord(s: string): Option<string> {
    if s == [] then None
    else if s[0] == '"' then (if |s| == 1 then Some([]) else None)
    else if s[0] == '`' || (s[0] == '$' && |s| >= 2 && ExpansionStart(s[1])) then None
    else if s[0] == '\\' && |s| >= 2 && s[1] == '\n' then ShellWord(s[2..])
    else if s[0] == '\\' && |s| >= 2 && (s[1] == '$' || s[1] == '`' || s[1] == '"' || s[1] == '\\') then
      match ShellWord(s[2..]) case None => None case Some(w) => Some([s[1]] + w)
    else match ShellWord(s[1..]) case None => None case Some(w) => Some([s[0]] + w)
  }

  /** A character after `$` that makes it a parameter expansion, a command
      substitution or an arithmetic expansion: `(`, `{`, a name character, a
      digit or a special parameter. */
  predicate ExpansionStart(c: char) {
    || c == '(' || c == '{' || c == '_'
    || ('a' <= c <= 'z') || ('A' <= c <= 'Z') || ('0' <= c <= '9')
    || c == '@' || c == '*' || c == '#' || c == '?' || c == '-' || c == '$' || c == '!'
  }

  /** The argument osascript receives for a command. */
  function ShellArgument(cmd: string): Option<string> {
    if Text.StartsWith(cmd, CommandPrefix) then ShellWord(cmd[|CommandPrefix|..]) else None
  }

  /** Text the shell reads back unchanged once its quotes are escaped. */
  predicate Plain(p: string) {
    forall k :: 0 <= k < |p| ==> p[k] != '\\' && p[k] != '$' && p[k] != '`' && p[k] != '\n'
  }

  lemma {:induction false} ShellWordOfPlain(p: string, t: string)
    requires Plain(p)
    ensures ShellWord(t).None? ==> ShellWord(Escape(p) + t).None?
    ensures ShellWord(t).Some? ==> ShellWord(Escape(p) + t) == Some(p + ShellWord(t).value)
  {
    if p == [] {
      assert Escape(p) == [];
      assert Escape(p) + t == t;
      if ShellWord(t).Some? {
        assert p + ShellWord(t).value == ShellWord(t).value;
      }
    } else {
      var h := if p[0] == '"' then "\\\"" else [p[0]];
      var u := Escape(p[1..]) + t;
      assert Escape(p) == h + Escape(p[1..]);
      assert Escape(p) + t == h + u;
      ShellWordOfPlain(p[1..], t);
      if p[0] == '"' {
        ShellWordQuoted('"', u);
      } else {
        ShellWordLiteral(p[0], u);
      }
      if ShellWord(t).Some? {
        assert p + ShellWord(t).value == [p[0]] + (p[1..] + ShellWord(t).value);
      }
    }
  }

  /** A character with no meaning inside double quotes stands for itself. */
  lemma ShellWordLiteral(c: char, u: string)
    requires c != '"' && c != '`' && c != '$' && c != '\\'
    ensures ShellWord([c] + u) == match ShellWord(u) case None => None case Some(w) => Some([c] + w)
  {
    assert ([c] + u)[1..] == u;
  }

  /** A backslash before `"`, `\\`, `$` or a backtick quotes it. */
  lemma ShellWordQuoted(c: char, u: string)
    requires c == '"' || c == '`' || c == '$' || c == '\\'
    ensures ShellWord(['\\', c] + u) == match ShellWord(u) case None => None case Some(w) => Some([c] + w)
  {
    assert (['\\', c] + u)[2..] == u;
  }

  /** As written, a `$` reaches the shell unquoted: for a script such as
      `open location "https://example.com/$(id)"` the shell runs an
      expansion instead of passing the script to osascript. */
  lemma CommandExpandsDollar(p: string, rest: string)
    requires Plain(p) && rest != [] && ExpansionStart(rest[0])
    ensures ShellArgument(Command(p + "$" + rest)) == None
  {
    var script := p + "$" + rest;
    assert script == p + ("$" + rest);
    Text.ReplaceAllAppend(p, "$" + rest, '"', "\\\"");
    Text.ReplaceAllAppend("$", rest, '"', "\\\"");
    assert Escape("$") == "$";
    assert rest == [rest[0]] + rest[1..];
    Text.ReplaceAllAppend([rest[0]], rest[1..], '"', "\\\"");
    assert Escape([rest[0]]) == [rest[0]];
    var t := "$" + Escape(rest) + "\"";
    assert t[1] == rest[0];
    assert Escape(script) + "\"" == Escape(p) + t;
    var cmd := Command(script);
    assert cmd == CommandPrefix + (Escape(p) + t);
    assert cmd[|CommandPrefix|..] == Escape(p) + t;
    assert ShellArgument(cmd) == ShellWord(Escape(p) + t);
    assert t[0] == '$';
    assert ShellWord(t) == None;
    ShellWordOfPlain(p, t);
  }

  /** Quoting for a double-quoted shell word: a backslash before each
      `\`, `"`, `$` and backtick. */
  function ShellEscape(script: string): string {
    if script == [] then []
    else
      var c := script[0];
      (if c == '\\' || c == '"' || c == '$' || c == '`' then ['\\', c] else [c]) + ShellEscape(script[1..])
  }

  /** The command with every shell-special character quoted. */
  function SafeCommand(script: string): (cmd: string)
    ensures ShellArgument(cmd) == Some(script)
  {
    ShellWordOfShellEscape(script);
    var cmd := CommandPrefix + ShellEscape(script) + "\"";
    assert cmd[|CommandPrefix|..] == ShellEscape(script) + "\"";
    cmd
  }

  /** The shell hands every script, quoted this way, to osascript unchanged. */
  lemma {:induction false} ShellWordOfShellEscape(script: string)
    ensures ShellWord(ShellEscape(script) + "\"") == Some(script)
  {
    if script != [] {
      var c := script[0];
      var rest := ShellEscape(script[1..]) + "\"";
      ShellWordOfShellEscape(script[1..]);
      if c == '\\' || c == '"' || c == '$' || c == '`' {
        assert ShellEscape(script) + "\"" == ['\\', c] + rest;
        assert (['\\', c] + rest)[2..] == rest;
      } else {
        assert ShellEscape(script) + "\"" == [c] + rest;
        assert ([c] + rest)[1..] == rest;
      }
      assert script == [c] + script[1..];
    } else {
      assert ShellEscape(script) + "\"" == "\"";
    }
  }
}
