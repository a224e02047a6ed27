/** The scripts the installer hands to a terminal: the install line list
    (`_build_install_script`), the way root commands are run, and the framing
    every pipeline gets (`_open_terminal_and_run_pipeline`). */
module Script {
  import opened Wrappers
  import Text
  import ShellQuote
  import Detect

  // ---------------------------------------------------------------------------
  // Install script (`_build_install_script`)
  // ---------------------------------------------------------------------------

  /** The package manager in use: the one chosen at start-up, else a fresh pick. */
  function ResolveManager(cached: Option<string>, onPath: set<string>): (mgr: Option<string>)
    ensures cached.Some? && cached.value != [] ==> mgr == cached
    ensures mgr.Some? ==> mgr.value != []
    ensures !(cached.Some? && cached.value != []) ==> mgr == Detect.PickPkgManager(onPath)
    ensures mgr.None? <==>
      !(cached.Some? && cached.value != []) && forall k :: 0 <= k < |Detect.PkgManagers| ==> Detect.PkgManagers[k] !in onPath
  {
    Detect.PickPkgManagerFirst(onPath);
    if cached.Some? && cached.value != [] then cached else Detect.PickPkgManager(onPath)
  }

  /** `cmd` run through the root primitive under the `expect` wrapper that
      answers pacman's prompts. */
  function ExpectRunRoot(cmd: string): string {
    "expect_yes_pac \"run_root \\\"" + cmd + "\\\"\""
  }

  /** The repository install command of a package manager. */
  function RepoInstallCommand(mgr: string): seq<string> {
    if mgr == "pamac" then ["pamac", "install"] else ["pacman", "-S", "--needed"]
  }

  /** The command line installing `pkgs`, each quoted as a shell word. */
  function CommandLine(cmd: seq<string>, pkgs: seq<string>): string {
    Text.Join(cmd, " ") + " " + ShellQuote.QuoteAll(pkgs)
  }

  const ParuCommand: seq<string> := ["paru", "-S", "--needed", "--skipreview", "--noconfirm"]
  const YayCommand: seq<string> := ["yay", "-S", "--needed", "--noconfirm", "--answerdiff", "None", "--answeredit", "None"]

  /** The AUR helper the script calls: the package manager itself when it is
      paru or yay, else paru, else yay, when on `PATH`. */
  function AurHelperFor(mgr: string, onPath: set<string>): (h: Option<string>)
    ensures h.Some? ==> h.value == "paru" || h.value == "yay"
    ensures h.None? <==> mgr != "paru" && mgr != "yay" && "paru" !in onPath && "yay" !in onPath
    ensures h.Some? && h.value !in onPath ==> h.value == mgr
    ensures (mgr == "paru" || mgr == "yay") ==> h == Some(mgr)
    ensures mgr != "paru" && mgr != "yay" && h.Some? ==> h.value in onPath && (h.value == "yay" ==> "paru" !in onPath)
  {
    if mgr == "paru" || mgr == "yay" then Some(mgr)
    else if "paru" in onPath then Some("paru")
    else if "yay" in onPath then Some("yay")
    else None
  }

  function HelperCommand(helper: string): seq<string> {
    if helper == "paru" then ParuCommand else YayCommand
  }

  /** The lines of the install script, or `None` when it cannot be built. */
  function InstallLines(mgr: Option<string>, onPath: set<string>, official: seq<string>, aur: seq<string>): Option<seq<string>> {
    if mgr.None? then None
    else
      var head := ["set -euo pipefail"]
        + (if official != [] then [ExpectRunRoot(CommandLine(RepoInstallCommand(mgr.value), official))] else []);
      if aur == [] then Some(head)
      else
        var helper := AurHelperFor(mgr.value, onPath);
        if helper.Some? then Some(head + [CommandLine(HelperCommand(helper.value), aur)])
        else if mgr.value == "pamac" then
          Some(head + ["expect_yes_pac \"" + CommandLine(["pamac", "build", "--no-confirm"], aur) + "\""])
        else None
  }

  /** `_build_install_script`: the lines joined with " ; ". */
  function BuildInstallScript(mgr: Option<string>, onPath: set<string>, official: seq<string>, aur: seq<string>): (script: Option<string>)
    ensures script.None? <==>
      mgr.None? || (aur != [] && AurHelperFor(mgr.value, onPath).None? && mgr.value != "pamac")
    ensures script.Some? ==> Text.StartsWith(script.value, "set -euo pipefail")
  {
    var lines := InstallLines(mgr, onPath, official, aur);
    if lines.None? then None
    else
      Text.JoinStartsWithFirst(lines.value, " ; ");
      Some(Text.Join(lines.value, " ; "))
  }

  /** `_build_install_script` step by step: the line list grows by the
      repository line, then the AUR line, and is joined at the end. */
  method AssembleInstallScript(mgr: Option<string>, onPath: set<string>, official: seq<string>, aur: seq<string>)
    returns (script: Option<string>)
    ensures script == BuildInstallScript(mgr, onPath, official, aur)
  {
    if mgr.None? {
      return None;
    }
    var lines := ["set -euo pipefail"];
    if official != [] {
      lines := lines + [ExpectRunRoot(CommandLine(RepoInstallCommand(mgr.value), official))];
    }
    ghost var head := lines;
    assert head == ["set -euo pipefail"]
      + (if official != [] then [ExpectRunRoot(CommandLine(RepoInstallCommand(mgr.value), official))] else []);
    if aur != [] {
      var helper := AurHelperFor(mgr.value, onPath);
      if helper.Some? {
        lines := lines + [CommandLine(HelperCommand(helper.value), aur)];
      } else if mgr.value == "pamac" {
        lines := lines + ["expect_yes_pac \"" + CommandLine(["pamac", "build", "--no-confirm"], aur) + "\""];
      } else {
        return None;
      }
    }
    assert InstallLines(mgr, onPath, official, aur) == Some(lines);
    script := Some(Text.Join(lines, " ; "));
  }

  /** One line per non-empty group after the strict-mode line: the repository
      line first (pamac's own install under pamac, pacman otherwise, run through
      `run_root` under `expect`), then
      the AUR line (the helper, else a pamac build under `expect`). */
  lemma InstallLinesShape(mgr: Option<string>, onPath: set<string>, official: seq<string>, aur: seq<string>)
    requires InstallLines(mgr, onPath, official, aur).Some?
    ensures var lines := InstallLines(mgr, onPath, official, aur).value;
      && mgr.Some?
      && |lines| == 1 + (if official != [] then 1 else 0) + (if aur != [] then 1 else 0)
      && lines[0] == "set -euo pipefail"
      && (official != [] ==> lines[1] == ExpectRunRoot(CommandLine(RepoInstallCommand(mgr.value), official)))
      && (aur != [] && AurHelperFor(mgr.value, onPath).Some? ==>
            lines[|lines| - 1] == CommandLine(HelperCommand(AurHelperFor(mgr.value, onPath).value), aur))
      && (aur != [] && AurHelperFor(mgr.value, onPath).None? ==> mgr.value == "pamac")
  {
  }

  lemma SafeWords(ws: seq<string>)
    requires ws == ParuCommand || ws == YayCommand || ws == ["pamac", "install"]
          || ws == ["pacman", "-S", "--needed"] || ws == ["pamac", "build", "--no-confirm"]
    ensures forall i :: 0 <= i < |ws| ==> ws[i] != [] && ShellQuote.IsSafe(ws[i])
  {
  }

  /** Each command line splits back, as the shell reads it, into the command
      words followed by exactly the package names. */
  lemma CommandLineWords(cmd: seq<string>, pkgs: seq<string>)
    requires cmd == ParuCommand || cmd == YayCommand || cmd == ["pamac", "install"]
          || cmd == ["pacman", "-S", "--needed"] || cmd == ["pamac", "build", "--no-confirm"]
    requires pkgs != []
    ensures ShellQuote.Words(CommandLine(cmd, pkgs)) == Some(cmd + pkgs)
  {
    SafeWords(cmd);
    ShellQuote.WordsOfCommand(cmd, pkgs);
  }

  /** The AUR line built with a helper runs that helper's non-interactive
      install of exactly the AUR packages; the repository command, which
      the script runs inside `run_root` under `expect`, splits into the
      manager's install of exactly the official packages. */
  lemma InstallCommandsWords(mgr: string, helper: string, pkgs: seq<string>)
    requires helper == "paru" || helper == "yay"
    requires pkgs != []
    ensures ShellQuote.Words(CommandLine(HelperCommand(helper), pkgs)) == Some(HelperCommand(helper) + pkgs)
    ensures ShellQuote.Words(CommandLine(RepoInstallCommand(mgr), pkgs)) == Some(RepoInstallCommand(mgr) + pkgs)
  {
    CommandLineWords(HelperCommand(helper), pkgs);
    CommandLineWords(RepoInstallCommand(mgr), pkgs);
  }

  // ---------------------------------------------------------------------------
  // Run mode and the root primitive
  // ---------------------------------------------------------------------------

  datatype RunMode = User | RootEuid0 | RootPkexec | RootSudo

  /** How a pipeline gets root: not at all, already root, pkexec when
      available, sudo in the terminal otherwise. */
  function RunModeFor(needRoot: bool, euid: nat, pkexecOnPath: bool): (m: RunMode)
    ensures m == User <==> !needRoot
    ensures m == RootEuid0 <==> needRoot && euid == 0
    ensures m == RootPkexec <==> needRoot && euid != 0 && pkexecOnPath
    ensures m == RootSudo <==> needRoot && euid != 0 && !pkexecOnPath
  {
    if !needRoot then User
    else if euid == 0 then RootEuid0
    else if pkexecOnPath then RootPkexec
    else RootSudo
  }

  /** sudo's flags: always `-k` (ask again), and `-A` (graphical askpass)
      when `SUDO_ASKPASS` is set. */
  function SudoFlags(askpass: string): (flags: string)
    ensures |flags| >= 2 && flags[|flags| - 2..] == "-k"
    ensures 'A' in flags <==> askpass != []
  {
    if askpass != [] then "-A -k" else "-k"
  }

  /** What `run_root` is defined as inside the pipeline. */
  datatype RootPrimitive = DirectRoot | PkexecWrapper | Sudo(flags: string) | NoElevation

  function RootPrimitiveFor(mode: RunMode, askpass: string): (p: RootPrimitive)
    ensures p.NoElevation? <==> mode.User?
    ensures p.PkexecWrapper? <==> mode.RootPkexec?
    ensures p.Sudo? <==> mode.RootSudo?
    ensures p.Sudo? ==> p.flags == SudoFlags(askpass)
  {
    match mode
    case User => NoElevation
    case RootEuid0 => DirectRoot
    case RootPkexec => PkexecWrapper
    case RootSudo => Sudo(SudoFlags(askpass))
  }

  // ---------------------------------------------------------------------------
  // Framing and the sentinel
  // ---------------------------------------------------------------------------

  /** The file the pipeline writes when it reaches its end, named after the
      process id and the time in milliseconds. */
  function SentinelPath(pid: nat, millis: nat): string {
    "/tmp/gnusk_done_" + Text.NatToString(pid) + "_" + Text.NatToString(millis)
  }

  /** The sentinel path needs no quoting. */
  lemma SentinelSafe(pid: nat, millis: nat)
    ensures ShellQuote.IsSafe(SentinelPath(pid, millis))
    ensures ShellQuote.Quote(SentinelPath(pid, millis)) == SentinelPath(pid, millis)
  {
    var p := SentinelPath(pid, millis);
    var a := Text.NatToString(pid);
    var b := Text.NatToString(millis);
    var pre: string := "/tmp/gnusk_done_";
    assert ShellQuote.IsSafe(pre);
    forall i | 0 <= i < |p| ensures ShellQuote.IsSafeChar(p[i]) {
      if i < |pre| {
        assert p[i] == pre[i];
      } else if i < |pre| + |a| {
        assert p[i] == a[i - |pre|];
      } else if i == |pre| + |a| {
        assert p[i] == '_';
      } else {
        assert p[i] == b[i - |pre| - |a| - 1];
      }
    }
  }

  /** Distinct process ids or times give distinct sentinel files. */
  lemma SentinelInjective(pid1: nat, ms1: nat, pid2: nat, ms2: nat)
    requires SentinelPath(pid1, ms1) == SentinelPath(pid2, ms2)
    ensures pid1 == pid2 && ms1 == ms2
  {
    var pre: string := "/tmp/gnusk_done_";
    var a1, b1 := Text.NatToString(pid1), Text.NatToString(ms1);
    var a2, b2 := Text.NatToString(pid2), Text.NatToString(ms2);
    var p := SentinelPath(pid1, ms1);
    assert p == pre + (a1 + "_" + b1) && p == pre + (a2 + "_" + b2);
    assert a1 + "_" + b1 == p[|pre|..] == a2 + "_" + b2;
    SplitAtUnderscore(a1, b1, a2, b2);
    Text.NatToStringInjective(pid1, pid2);
    Text.NatToStringInjective(ms1, ms2);
  }

  /** A run of digits followed by `_` is determined by the joined text. */
  lemma SplitAtUnderscore(a1: string, b1: string, a2: string, b2: string)
    requires forall i :: 0 <= i < |a1| ==> Text.IsDigit(a1[i])
    requires forall i :: 0 <= i < |a2| ==> Text.IsDigit(a2[i])
    requires a1 + "_" + b1 == a2 + "_" + b2
    ensures a1 == a2 && b1 == b2
  {
    var s := a1 + "_" + b1;
    var t := a2 + "_" + b2;
    assert s[|a1|] == '_' && t[|a2|] == '_';
    assert |a1| == |a2|;
    assert a1 == s[..|a1|] && a2 == t[..|a2|];
    assert b1 == s[|a1| + 1..] && b2 == t[|a2| + 1..];
  }

  /** The text after the body: write the sentinel, flush, succeed. */
  function SentinelTail(sentinel: string): string {
    " ; printf DONE > " + ShellQuote.Quote(sentinel) + " ; sync ; true"
  }

  /** The full pipeline: `set -e`, the `expect` helper and the root primitive
      definitions, pipefail, the body, then the sentinel. The helper
      definitions are shell text passed in as they are. */
  function FullScript(expectFunc: string, runRootDef: string, body: string, sentinel: string): string {
    Text.Join(["set -e", expectFunc, runRootDef], " ; ") + " ; set -o pipefail ; " + body + SentinelTail(sentinel)
  }

  /** The full pipeline starts in errexit mode and carries the body
      verbatim: two pipelines built around the same helper definitions and
      sentinel are equal only when their bodies are. */
  lemma FullScriptBody(expectFunc: string, runRootDef: string, body1: string, body2: string, sentinel: string)
    ensures Text.StartsWith(FullScript(expectFunc, runRootDef, body1, sentinel), "set -e ; ")
    ensures FullScript(expectFunc, runRootDef, body1, sentinel) == FullScript(expectFunc, runRootDef, body2, sentinel)
      ==> body1 == body2
  {
    Text.JoinCons(expectFunc, [runRootDef], " ; ");
    Text.JoinCons("set -e", [expectFunc, runRootDef], " ; ");
    var pre := Text.Join(["set -e", expectFunc, runRootDef], " ; ") + " ; set -o pipefail ; ";
    var tail := SentinelTail(sentinel);
    var f1 := FullScript(expectFunc, runRootDef, body1, sentinel);
    var f2 := FullScript(expectFunc, runRootDef, body2, sentinel);
    assert f1 == pre + body1 + tail && f2 == pre + body2 + tail;
    assert f1[..9] == "set -e ; ";
    if f1 == f2 {
      assert |body1| == |body2|;
      assert body1 == f1[|pre|..|pre| + |body1|];
      assert body2 == f2[|pre|..|pre| + |body2|];
    }
  }

  /** The last thing a pipeline does is write its sentinel file, whose
      path appears unquoted, then flush and succeed. */
  lemma FullScriptEndsWithSentinel(expectFunc: string, runRootDef: string, body: string, pid: nat, millis: nat)
    ensures var f := FullScript(expectFunc, runRootDef, body, SentinelPath(pid, millis));
      var t := " ; printf DONE > " + SentinelPath(pid, millis) + " ; sync ; true";
      |t| <= |f| && f[|f| - |t|..] == t
  {
    SentinelSafe(pid, millis);
    var f := FullScript(expectFunc, runRootDef, body, SentinelPath(pid, millis));
    var t := " ; printf DONE > " + SentinelPath(pid, millis) + " ; sync ; true";
    var pre := Text.Join(["set -e", expectFunc, runRootDef], " ; ") + " ; set -o pipefail ; " + body;
    assert f == pre + t;
  }
}
