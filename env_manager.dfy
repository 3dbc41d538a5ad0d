/**
 * Making KUBECONFIG persistent on a Unix-like system: the shell decides the
 * startup file and the command, and the file's first KUBECONFIG line is
 * rewritten (or the command appended) before the file is written back.
 */
module EnvManager {
  import opened Options
  import opened Strings
  import opened Paths
  import Manager

  /** The shell's name: the text after the last '/' of SHELL, read as "" when SHELL is unset. */
  function ShellName(shellVar: Option<string>): (r: string)
    ensures '/' !in r
    ensures shellVar.None? ==> r == ""
    ensures shellVar.Some? ==> |r| <= |shellVar.value| && shellVar.value[|shellVar.value| - |r|..] == r
    ensures shellVar.Some? && |r| < |shellVar.value| ==> shellVar.value[|shellVar.value| - |r| - 1] == '/'
  {
    if shellVar.None? then "" else LastSegment(shellVar.value, '/')
  }

  /** One entry of `shell_configs`: the startup file, relative to the home directory, and the command to put in it. */
  datatype ShellConfig = ShellConfig(file: string, command: string)

  /**
   * The `shell_configs` entry of a shell for the KUBECONFIG value `value`: bash
   * and zsh export the variable from their rc file, fish sets it from its
   * config file; None for an unsupported shell.
   */
  function ShellConfigFor(shellName: string, value: string): (r: Option<ShellConfig>)
    ensures r.Some? <==> shellName == "bash" || shellName == "zsh" || shellName == "fish"
    ensures shellName == "bash" ==> r == Some(ShellConfig(".bashrc", "export KUBECONFIG=" + "\"" + value + "\""))
    ensures shellName == "zsh" ==> r == Some(ShellConfig(".zshrc", "export KUBECONFIG=" + "\"" + value + "\""))
    ensures shellName == "fish" ==> r == Some(ShellConfig(".config/fish/config.fish", "set -x KUBECONFIG " + "\"" + value + "\""))
    ensures r.Some? ==> IsKubeconfigLine(r.value.command)
    ensures r.Some? && NoLineBreak(value) ==> NoLineBreak(r.value.command)
  {
    if shellName == "bash" then Some(ShellConfig(".bashrc", KubeconfigCommand("export KUBECONFIG=", value)))
    else if shellName == "zsh" then Some(ShellConfig(".zshrc", KubeconfigCommand("export KUBECONFIG=", value)))
    else if shellName == "fish" then Some(ShellConfig(".config/fish/config.fish", KubeconfigCommand("set -x KUBECONFIG ", value)))
    else None
  }

  /** `export KUBECONFIG="<value>"` or `set -x KUBECONFIG "<value>"`: recognised as a KUBECONFIG line whatever the value. */
  function KubeconfigCommand(lead: string, value: string): (command: string)
    requires lead == "export KUBECONFIG=" || lead == "set -x KUBECONFIG "
    ensures IsKubeconfigLine(command)
    ensures NoLineBreak(value) ==> NoLineBreak(command)
    ensures |command| == |lead| + |value| + 2
    ensures command[..|lead|] == lead && command[|lead|] == '"'
    ensures command[|lead| + 1..|command| - 1] == value && command[|command| - 1] == '"'
  {
    CommandRecognised(lead, value);
    QuotedLayout(lead, value);
    CommandHasNoBreak(lead, value);
    lead + "\"" + value + "\""
  }

  /** Where the lead, the quotes and the value sit in a quoted command. */
  lemma QuotedLayout(lead: string, value: string)
    ensures var command := lead + "\"" + value + "\"";
      |command| == |lead| + |value| + 2 &&
      command[..|lead|] == lead && command[|lead|] == '"' &&
      command[|lead| + 1..|command| - 1] == value && command[|command| - 1] == '"'
  {
    var command := lead + "\"" + value + "\"";
    assert command == lead + ("\"" + value + "\"");
    assert command[|lead|..] == "\"" + value + "\"";
  }

  /** A line `_set_unix_env` takes for a KUBECONFIG definition: once stripped, it starts with `export KUBECONFIG=` or `set -x KUBECONFIG`. */
  predicate IsKubeconfigLine(line: string) {
    var t := Strip(line);
    "export KUBECONFIG=" <= t || "set -x KUBECONFIG" <= t
  }

  /** Both commands are recognised as KUBECONFIG lines. */
  lemma CommandRecognised(lead: string, value: string)
    requires lead == "export KUBECONFIG=" || lead == "set -x KUBECONFIG "
    ensures IsKubeconfigLine(lead + "\"" + value + "\"")
  {
    var quoted := "\"" + value + "\"";
    var command := lead + quoted;
    assert command == lead + "\"" + value + "\"";
    assert command[0] == lead[0] && command[|command| - 1] == quoted[|quoted| - 1];
    StripUnpadded(command);
    assert command[..|lead|] == lead;
    if lead != "export KUBECONFIG=" {
      assert "set -x KUBECONFIG" <= lead;
    }
  }

  /**
   * Any line that is whitespace, then one of the two prefixes, then anything is
   * recognised: an indented user line gets replaced too.
   */
  lemma IndentedLineRecognised(pre: string, prefix: string, rest: string)
    requires AllSpace(pre)
    requires prefix == "export KUBECONFIG=" || prefix == "set -x KUBECONFIG"
    ensures IsKubeconfigLine(pre + prefix + rest)
  {
    var t := prefix + rest;
    assert pre + prefix + rest == pre + t;
    assert t[0] == prefix[0];
    TrimStartOfPadded(pre, t);
    TrimEndKeepsPrefix(prefix, rest);
  }

  /** A command carries no line break when its value has none. */
  lemma CommandHasNoBreak(lead: string, value: string)
    requires lead == "export KUBECONFIG=" || lead == "set -x KUBECONFIG "
    ensures NoLineBreak(value) ==> NoLineBreak(lead + "\"" + value + "\"")
  {
    if NoLineBreak(value) {
      forall j | 0 <= j < |lead|
        ensures !IsLineBreak(lead[j])
      {
        assert ' ' <= lead[j] <= 'x';
      }
      assert NoLineBreak("\"");
      NoLineBreakConcat(lead, "\"");
      NoLineBreakConcat(lead + "\"", value);
      NoLineBreakConcat(lead + "\"" + value, "\"");
    }
  }

  lemma NoLineBreakConcat(a: string, b: string)
    requires NoLineBreak(a) && NoLineBreak(b)
    ensures NoLineBreak(a + b)
  {
    assert forall j :: 0 <= j < |a + b| ==> (a + b)[j] == if j < |a| then a[j] else b[j - |a|];
  }

  /** The empty line is not a KUBECONFIG line. */
  lemma BlankNotRecognised()
    ensures !IsKubeconfigLine("")
  {
    assert Strip("") == "";
  }

  /** The index of the first line that `matches` accepts, or -1 when there is none. */
  function FirstMatch(lines: seq<string>, matches: string -> bool): (i: int)
    ensures -1 <= i < |lines|
    ensures 0 <= i ==> matches(lines[i])
    ensures forall j :: 0 <= j < |lines| && (i == -1 || j < i) ==> !matches(lines[j])
  {
    if lines == [] then -1
    else if matches(lines[0]) then 0
    else
      var k := FirstMatch(lines[1..], matches);
      assert forall j :: 0 < j < |lines| ==> lines[j] == lines[1..][j - 1];
      if k == -1 then -1 else k + 1
  }

  /**
   * The lines after the rewrite: only the first line `matches` accepts is
   * replaced by `command`, with every other line in place; without one, a blank
   * line and `command` are appended after the existing lines.
   */
  function Rewritten(lines: seq<string>, matches: string -> bool, command: string): (r: seq<string>)
    ensures var i := FirstMatch(lines, matches);
      0 <= i ==> |r| == |lines| && r[i] == command && forall j :: 0 <= j < |r| && j != i ==> r[j] == lines[j]
    ensures FirstMatch(lines, matches) == -1 ==> |r| == |lines| + 2 && r[..|lines|] == lines && r[|lines|..] == ["", command]
  {
    var i := FirstMatch(lines, matches);
    if 0 <= i then lines[i := command] else lines + ["", command]
  }

  /** Rewriting a second time with a command that is itself recognised changes nothing more. */
  lemma RewriteIdempotent(lines: seq<string>, matches: string -> bool, command: string)
    requires matches(command) && !matches("")
    ensures Rewritten(Rewritten(lines, matches, command), matches, command) == Rewritten(lines, matches, command)
  {
    var once := Rewritten(lines, matches, command);
    var i := FirstMatch(lines, matches);
    if 0 <= i {
      assert forall j :: 0 <= j < i ==> once[j] == lines[j];
      assert FirstMatch(once, matches) == i;
    } else {
      assert once[|lines|] == "" && once[|lines| + 1] == command;
      assert FirstMatch(once, matches) == |lines| + 1;
    }
  }

  /** The rewrite brings in no line break that the lines and the command do not have. */
  lemma RewrittenHasNoBreaks(lines: seq<string>, matches: string -> bool, command: string)
    requires forall k :: 0 <= k < |lines| ==> NoLineBreak(lines[k])
    requires NoLineBreak(command)
    ensures var r := Rewritten(lines, matches, command);
      forall k :: 0 <= k < |r| ==> NoLineBreak(r[k])
  {
    var r := Rewritten(lines, matches, command);
    if FirstMatch(lines, matches) == -1 {
      assert NoLineBreak("");
      forall k | 0 <= k < |r|
        ensures NoLineBreak(r[k])
      {
        if k < |lines| {
          assert r[k] == r[..|lines|][k];
        } else {
          assert r[k] == r[|lines|..][k - |lines|];
        }
      }
    }
  }

  /**
   * The line loop of `_set_unix_env`, with `matches` the test it applies to
   * each line: stops at the first accepted line and replaces it, and otherwise
   * appends a blank line and the command.
   */
  method RewriteLines(lines: seq<string>, matches: string -> bool, exportCommand: string) returns (updated: seq<string>)
    ensures updated == Rewritten(lines, matches, exportCommand)
  {
    updated := lines;
    var foundAndUpdated := false;
    for i := 0 to |lines|
      invariant updated == lines && !foundAndUpdated
      invariant forall j :: 0 <= j < i ==> !matches(lines[j])
    {
      if matches(updated[i]) {
        assert FirstMatch(lines, matches) == i;
        updated := updated[i := exportCommand];
        foundAndUpdated := true;
        break;
      }
    }
    if !foundAndUpdated {
      updated := updated + [""];
      updated := updated + [exportCommand];
    }
  }

  /** The text written back: the lines joined with "\n", plus one final "\n". */
  function FileText(lines: seq<string>): (r: string)
    ensures |r| >= 1 && r[|r| - 1] == '\n'
    ensures |lines| == 0 ==> r == "\n"
    ensures |lines| >= 1 ==> lines[0] <= r
  {
    JoinWith(lines, "\n") + "\n"
  }

  /** The outcome of `_set_unix_env`: an unsupported shell (nothing written), or the file and the text written to it. */
  datatype EnvUpdate = UnsupportedShell(shell: string) | WriteFile(file: string, text: string)

  /**
   * What `_set_unix_env` does for SHELL `shellVar`, home directory `home` and
   * KUBECONFIG value `value`; `existing` is the startup file's text, None when
   * it does not exist.
   */
  function UnixEnvPlan(shellVar: Option<string>, home: string, value: string, existing: Option<string>): (r: EnvUpdate)
    ensures r.UnsupportedShell? <==> ShellConfigFor(ShellName(shellVar), value).None?
    ensures r.UnsupportedShell? ==> r.shell == ShellName(shellVar)
    ensures r.WriteFile? ==> r.file == Join(home, ShellConfigFor(ShellName(shellVar), value).value.file)
    ensures r.WriteFile? ==>
      r.text == FileText(Rewritten(if existing.Some? then SplitLines(existing.value) else [], IsKubeconfigLine,
                                   ShellConfigFor(ShellName(shellVar), value).value.command))
  {
    var shellName := ShellName(shellVar);
    match ShellConfigFor(shellName, value)
    case None => UnsupportedShell(shellName)
    case Some(config) =>
      var lines := if existing.Some? then SplitLines(existing.value) else [];
      WriteFile(Join(home, config.file), FileText(Rewritten(lines, IsKubeconfigLine, config.command)))
  }

  /** `_set_unix_env` with its file read and write as values. */
  method SetUnixEnv(shellVar: Option<string>, home: string, value: string, existing: Option<string>) returns (r: EnvUpdate)
    ensures r == UnixEnvPlan(shellVar, home, value, existing)
  {
    var shellName := ShellName(shellVar);
    var config := ShellConfigFor(shellName, value);
    if config.None? {
      return UnsupportedShell(shellName);
    }
    var configFilePath := Join(home, config.value.file);
    var exportCommand := config.value.command;
    var lines := if existing.Some? then SplitLines(existing.value) else [];
    lines := RewriteLines(lines, IsKubeconfigLine, exportCommand);
    return WriteFile(configFilePath, FileText(lines));
  }

  /**
   * Writing the rewritten lines out, reading them back and rewriting again with
   * a recognised command gives the same lines.
   */
  lemma RewriteRoundTrip(lines: seq<string>, matches: string -> bool, command: string)
    requires forall k :: 0 <= k < |lines| ==> NoLineBreak(lines[k])
    requires NoLineBreak(command) && matches(command) && !matches("")
    ensures var once := Rewritten(lines, matches, command);
      Rewritten(SplitLines(FileText(once)), matches, command) == once
  {
    var once := Rewritten(lines, matches, command);
    RewrittenHasNoBreaks(lines, matches, command);
    SplitLinesOfJoined(once);
    RewriteIdempotent(lines, matches, command);
  }

  /**
   * Running the update again on the text it wrote writes the same text: the
   * command is found where it was put and replaced by itself.
   */
  lemma SetUnixEnvIdempotent(shellVar: Option<string>, home: string, value: string, existing: Option<string>)
    requires NoLineBreak(value)
    ensures var first := UnixEnvPlan(shellVar, home, value, existing);
      first.WriteFile? ==> UnixEnvPlan(shellVar, home, value, Some(first.text)) == first
  {
    var config := ShellConfigFor(ShellName(shellVar), value);
    if config.Some? {
      var lines := if existing.Some? then SplitLines(existing.value) else [];
      BlankNotRecognised();
      RewriteRoundTrip(lines, IsKubeconfigLine, config.value.command);
    }
  }

  /** The KUBECONFIG value: the resolved paths joined by the path separator, in the given order. */
  function KubeconfigValue(filePaths: seq<string>, resolve: string -> string, pathSep: char): (r: string)
    ensures |filePaths| == 0 ==> r == ""
    ensures |filePaths| >= 1 ==> resolve(filePaths[0]) <= r
  {
    JoinWith(Resolved(filePaths, resolve), [pathSep])
  }

  function Resolved(filePaths: seq<string>, resolve: string -> string): (r: seq<string>)
    ensures |r| == |filePaths|
    ensures forall i :: 0 <= i < |r| ==> r[i] == resolve(filePaths[i])
  {
    seq(|filePaths|, i requires 0 <= i < |filePaths| => resolve(filePaths[i]))
  }

  /** Splitting the value on the separator gives back the resolved paths, in order, when none contains the separator. */
  lemma KubeconfigValueSplitsBack(filePaths: seq<string>, resolve: string -> string, pathSep: char)
    requires |filePaths| >= 1
    requires forall i :: 0 <= i < |filePaths| ==> pathSep !in resolve(filePaths[i])
    ensures SplitOn(KubeconfigValue(filePaths, resolve, pathSep), pathSep) == Resolved(filePaths, resolve)
  {
    SplitOfJoin(Resolved(filePaths, resolve), pathSep);
  }

  /**
   * A later run with the persisted KUBECONFIG and no explicit path uses the
   * first of the persisted files.
   */
  lemma PersistedKubeconfigSelectsFirst(filePaths: seq<string>, resolve: string -> string, pathSep: char, home: string)
    requires |filePaths| >= 1 && resolve(filePaths[0]) != ""
    requires forall i :: 0 <= i < |filePaths| ==> pathSep !in resolve(filePaths[i])
    ensures Manager.ResolvePath(None, Some(KubeconfigValue(filePaths, resolve, pathSep)), home, pathSep) == resolve(filePaths[0])
  {
    var value := KubeconfigValue(filePaths, resolve, pathSep);
    KubeconfigValueSplitsBack(filePaths, resolve, pathSep);
    assert value != "" by {
      JoinEndsWithLast(Resolved(filePaths, resolve), pathSep);
      if |filePaths| == 1 {
        assert value == resolve(filePaths[0]);
      }
    }
  }
}
