/** Choosing the terminal emulator a pipeline runs in
    (`_open_terminal_and_run_pipeline`): the one `$TERMINAL` names, else the
    first known terminal on `PATH` (Wayland-friendly ones first in a Wayland
    session), else no terminal at all and a logged background run. */
module Terminal {
  import opened Wrappers
  import Text
  import ShellQuote

  /** A known terminal: its command, the arguments that make it run a
      command, whether that command must be one string, and whether it is
      preferred under Wayland. */
  datatype TerminalSpec = TerminalSpec(name: string, args: seq<string>, needsString: bool, waylandPref: bool)

  const Terminals: seq<TerminalSpec> := [
    TerminalSpec("kgx", ["kgx", "--", "bash", "-lc"], false, true),
    TerminalSpec("ghostty", ["ghostty", "--", "bash", "-lc"], false, true),
    TerminalSpec("foot", ["foot", "-e", "bash", "-lc"], false, true),
    TerminalSpec("footclient", ["footclient", "-e", "bash", "-lc"], false, true),
    TerminalSpec("rio", ["rio", "-e", "bash", "-lc"], false, true),
    TerminalSpec("wezterm", ["wezterm", "start", "bash", "-lc"], false, true),
    TerminalSpec("gnome-terminal", ["gnome-terminal", "--wait", "--", "bash", "-lc"], false, false),
    TerminalSpec("konsole", ["konsole", "-e", "bash", "-lc"], false, false),
    TerminalSpec("xterm", ["xterm", "-e", "bash", "-lc"], false, false),
    TerminalSpec("terminator", ["terminator", "-x", "bash", "-lc"], false, false),
    TerminalSpec("urxvt", ["urxvt", "-e", "bash", "-lc"], false, false),
    TerminalSpec("rxvt", ["rxvt", "-e", "bash", "-lc"], false, false),
    TerminalSpec("st", ["st", "-e", "bash", "-lc"], false, false),
    TerminalSpec("eterm", ["eterm", "-e", "bash", "-lc"], false, false),
    TerminalSpec("terminology", ["terminology", "-e", "bash", "-lc"], false, false),
    TerminalSpec("alacritty", ["alacritty", "-e", "bash", "-lc"], false, false),
    TerminalSpec("kitty", ["kitty", "-e", "bash", "-lc"], false, false),
    TerminalSpec("tilix", ["tilix", "--", "bash", "-lc"], false, false),
    TerminalSpec("xfce4-terminal", ["xfce4-terminal", "--command"], true, false),
    TerminalSpec("mate-terminal", ["mate-terminal", "--", "bash", "-lc"], false, false),
    TerminalSpec("qterminal", ["qterminal", "-e", "bash", "-lc"], false, false),
    TerminalSpec("lxterminal", ["lxterminal", "-e", "bash", "-lc"], false, false)
  ]

  // ---------------------------------------------------------------------------
  // Wayland ordering
  // ---------------------------------------------------------------------------

  function Preferred(ts: seq<TerminalSpec>): (r: seq<TerminalSpec>)
    ensures forall i :: 0 <= i < |r| ==> r[i].waylandPref
    decreases |ts|
  {
    if ts == [] then []
    else (if ts[0].waylandPref then [ts[0]] else []) + Preferred(ts[1..])
  }

  function Others(ts: seq<TerminalSpec>): (r: seq<TerminalSpec>)
    ensures forall i :: 0 <= i < |r| ==> !r[i].waylandPref
    decreases |ts|
  {
    if ts == [] then []
    else (if ts[0].waylandPref then [] else [ts[0]]) + Others(ts[1..])
  }

  /** The stable sort on "not preferred": the Wayland-friendly terminals
      first, each group in table order. */
  function WaylandFirst(ts: seq<TerminalSpec>): seq<TerminalSpec> {
    Preferred(ts) + Others(ts)
  }

  /** The sort is a permutation: every terminal stays, as often as before. */
  lemma {:induction false} WaylandFirstPermutes(ts: seq<TerminalSpec>)
    ensures multiset(WaylandFirst(ts)) == multiset(ts)
    decreases |ts|
  {
    if ts != [] {
      WaylandFirstPermutes(ts[1..]);
      assert ts == [ts[0]] + ts[1..];
    }
  }

  /** A list already grouped preferred-first is left as it is. */
  lemma {:induction false} WaylandFirstOfGrouped(ts: seq<TerminalSpec>, k: nat)
    requires k <= |ts|
    requires forall i :: 0 <= i < k ==> ts[i].waylandPref
    requires forall i :: k <= i < |ts| ==> !ts[i].waylandPref
    ensures Preferred(ts) == ts[..k] && Others(ts) == ts[k..]
    decreases |ts|
  {
    if ts != [] {
      if k > 0 {
        WaylandFirstOfGrouped(ts[1..], k - 1);
        assert ts[..k] == [ts[0]] + ts[1..][..k - 1];
        assert ts[k..] == ts[1..][k - 1..];
      } else {
        WaylandFirstOfGrouped(ts[1..], 0);
        assert ts == [ts[0]] + ts[1..];
      }
    }
  }

  lemma TablePreferences()
    ensures forall i :: 0 <= i < 6 ==> Terminals[i].waylandPref
    ensures forall i :: 6 <= i < |Terminals| ==> !Terminals[i].waylandPref
  {
  }

  lemma SplitRejoin<T>(s: seq<T>, k: nat)
    requires k <= |s|
    ensures s[..k] + s[k..] == s
  {
  }

  /** The table already lists the six Wayland-friendly terminals first, so
      a Wayland session tries the terminals in table order too. */
  lemma WaylandOrderOfTable()
    ensures WaylandFirst(Terminals) == Terminals
  {
    TablePreferences();
    WaylandFirstOfGrouped(Terminals, 6);
    SplitRejoin(Terminals, 6);
  }

  // ---------------------------------------------------------------------------
  // Command lines
  // ---------------------------------------------------------------------------

  /** The terminal's command followed by the pipeline: as one
      `bash -lc '<script>'` string for terminals that take one string, as a
      separate argument after their own `bash -lc` otherwise. */
  function ArgvFor(t: TerminalSpec, fullScript: string): seq<string> {
    t.args + (if t.needsString then ["bash -lc " + ShellQuote.Quote(fullScript)] else [fullScript])
  }

  /** Every table entry starts its arguments with its own command, and either
      takes one string or ends its arguments with `bash -lc`. */
  lemma TableShape()
    ensures forall i :: 0 <= i < |Terminals| ==>
      && |Terminals[i].args| >= 2
      && Terminals[i].args[0] == Terminals[i].name
      && (Terminals[i].needsString || Terminals[i].args[|Terminals[i].args| - 2..] == ["bash", "-lc"])
  {
  }

  /** Whatever the terminal, the pipeline reaches `bash -lc` as exactly one
      argument, unchanged. */
  lemma ArgvRunsScript(i: nat, fullScript: string)
    requires i < |Terminals|
    ensures var t := Terminals[i];
      var argv := ArgvFor(t, fullScript);
      && argv[0] == t.name
      && (t.needsString ==> ShellQuote.Words(argv[|argv| - 1]) == Some(["bash", "-lc", fullScript]))
      && (!t.needsString ==> argv[|argv| - 3..] == ["bash", "-lc", fullScript])
  {
    TableShape();
    var t := Terminals[i];
    if t.needsString {
      ShellQuote.WordsOfBashLc(fullScript);
    } else {
      var argv := ArgvFor(t, fullScript);
      assert argv[|argv| - 3..] == t.args[|t.args| - 2..] + [fullScript];
    }
  }

  // ---------------------------------------------------------------------------
  // Choice
  // ---------------------------------------------------------------------------

  /** The first entry with the given name whose command is on `PATH`. */
  function FirstNamed(ts: seq<TerminalSpec>, name: string, onPath: set<string>): (r: Option<TerminalSpec>)
    ensures r.Some? ==> r.value in ts && r.value.name == name && r.value.name in onPath
    ensures r.None? ==> forall i :: 0 <= i < |ts| ==> !(ts[i].name == name && ts[i].name in onPath)
    ensures r.Some? ==> exists k ::
      && 0 <= k < |ts| && ts[k] == r.value
      && forall j :: 0 <= j < k ==> !(ts[j].name == name && ts[j].name in onPath)
  {
    if ts == [] then None
    else if ts[0].name == name && ts[0].name in onPath then Some(ts[0])
    else FirstNamed(ts[1..], name, onPath)
  }

  /** The first entry whose command is on `PATH`. */
  function FirstAvailable(ts: seq<TerminalSpec>, onPath: set<string>): (r: Option<TerminalSpec>)
    ensures r.Some? ==> r.value in ts && r.value.name in onPath
    ensures r.None? ==> forall i :: 0 <= i < |ts| ==> ts[i].name !in onPath
    ensures r.Some? ==> exists k ::
      && 0 <= k < |ts| && ts[k] == r.value
      && forall j :: 0 <= j < k ==> ts[j].name !in onPath
  {
    if ts == [] then None
    else if ts[0].name in onPath then Some(ts[0])
    else FirstAvailable(ts[1..], onPath)
  }

  /** How the pipeline is started: in a terminal with this argument vector,
      or with no terminal, as `bash -lc <script>` with its output logged. */
  datatype Launch = InTerminal(argv: seq<string>) | Headless(argv: seq<string>)

  predicate IsWayland(sessionType: string) {
    Text.Lower(sessionType) == "wayland"
  }

  function SessionOrder(sessionType: string): seq<TerminalSpec> {
    if IsWayland(sessionType) then WaylandFirst(Terminals) else Terminals
  }

  /** The launch decided from a table and the order it is scanned in. */
  function LaunchFrom(table: seq<TerminalSpec>, order: seq<TerminalSpec>, termEnv: string, onPath: set<string>,
                      fullScript: string): Launch {
    var named := if termEnv != [] then FirstNamed(table, termEnv, onPath) else None;
    if named.Some? then InTerminal(ArgvFor(named.value, fullScript))
    else
      var first := FirstAvailable(order, onPath);
      if first.Some? then InTerminal(ArgvFor(first.value, fullScript))
      else Headless(["bash", "-lc", fullScript])
  }

  /** The launch the source decides on, as a function of its inputs:
      `$TERMINAL` (empty when unset), `$XDG_SESSION_TYPE` and `PATH`. */
  function ChosenLaunch(termEnv: string, sessionType: string, onPath: set<string>, fullScript: string): Launch {
    LaunchFrom(Terminals, SessionOrder(sessionType), termEnv, onPath, fullScript)
  }

  /** The first-match loop over a table. */
  method FindNamed(table: seq<TerminalSpec>, name: string, onPath: set<string>) returns (found: Option<TerminalSpec>)
    ensures found == FirstNamed(table, name, onPath)
  {
    for i := 0 to |table|
      invariant FirstNamed(table, name, onPath) == FirstNamed(table[i..], name, onPath)
    {
      assert table[i..][1..] == table[i + 1..];
      var t := table[i];
      if t.name == name && t.name in onPath {
        return Some(t);
      }
    }
    return None;
  }

  /** `_terminal_cmd_for` */
  method TerminalCmdFor(name: string, onPath: set<string>) returns (found: Option<TerminalSpec>)
    ensures found == FirstNamed(Terminals, name, onPath)
  {
    found := FindNamed(Terminals, name, onPath);
  }

  /** The scan over the terminals in session order. */
  method LaunchFromTable(table: seq<TerminalSpec>, order: seq<TerminalSpec>, termEnv: string, onPath: set<string>,
                         fullScript: string) returns (launch: Launch)
    ensures launch == LaunchFrom(table, order, termEnv, onPath, fullScript)
  {
    if termEnv != [] {
      var found := FindNamed(table, termEnv, onPath);
      if found.Some? {
        return InTerminal(ArgvFor(found.value, fullScript));
      }
    }
    for i := 0 to |order|
      invariant FirstAvailable(order, onPath) == FirstAvailable(order[i..], onPath)
    {
      assert order[i..][1..] == order[i + 1..];
      if order[i].name in onPath {
        return InTerminal(ArgvFor(order[i], fullScript));
      }
    }
    return Headless(["bash", "-lc", fullScript]);
  }

  /** The terminal selection of `_open_terminal_and_run_pipeline`. */
  method ChooseLaunch(termEnv: string, sessionType: string, onPath: set<string>, fullScript: string)
    returns (launch: Launch)
    ensures launch == ChosenLaunch(termEnv, sessionType, onPath, fullScript)
  {
    var terms := if IsWayland(sessionType) then WaylandFirst(Terminals) else Terminals;
    launch := LaunchFromTable(Terminals, terms, termEnv, onPath, fullScript);
  }

  /** Each entry's arguments start with its own command. */
  predicate StartsWithName(table: seq<TerminalSpec>) {
    forall i :: 0 <= i < |table| ==> |table[i].args| >= 1 && table[i].args[0] == table[i].name
  }

  /** For any table whose entries start with their own command, scanned in
      its own order: a terminal is used exactly when one is on `PATH`, and
      it is one on `PATH`; a `$TERMINAL` entry on `PATH` wins. */
  lemma LaunchFromFacts(table: seq<TerminalSpec>, termEnv: string, onPath: set<string>, fullScript: string)
    requires StartsWithName(table)
    ensures var launch := LaunchFrom(table, table, termEnv, onPath, fullScript);
      && (launch.InTerminal? <==> exists i :: 0 <= i < |table| && table[i].name in onPath)
      && (launch.InTerminal? ==> launch.argv[0] in onPath)
      && (launch.Headless? ==> launch.argv == ["bash", "-lc", fullScript])
      && (termEnv != [] && FirstNamed(table, termEnv, onPath).Some? ==>
            launch == InTerminal(ArgvFor(FirstNamed(table, termEnv, onPath).value, fullScript)))
  {
    var named := if termEnv != [] then FirstNamed(table, termEnv, onPath) else None;
    var first := FirstAvailable(table, onPath);
    if named.Some? {
      var i :| 0 <= i < |table| && table[i] == named.value;
    } else if first.Some? {
      var i :| 0 <= i < |table| && table[i] == first.value;
    }
  }

  lemma TableStartsWithName()
    ensures StartsWithName(Terminals)
  {
    TableShape();
  }

  /** The session type does not change the pick: both orders are the table's. */
  lemma SessionIrrelevant(termEnv: string, sessionType: string, onPath: set<string>, fullScript: string)
    ensures ChosenLaunch(termEnv, sessionType, onPath, fullScript) == LaunchFrom(Terminals, Terminals, termEnv, onPath, fullScript)
  {
    WaylandOrderOfTable();
    SameOrderSameLaunch(Terminals, IsWayland(sessionType), termEnv, onPath, fullScript);
  }

  /** For a table whose Wayland order is its own order, either order gives
      the same launch. */
  lemma SameOrderSameLaunch(table: seq<TerminalSpec>, wayland: bool, termEnv: string, onPath: set<string>,
                            fullScript: string)
    requires WaylandFirst(table) == table
    ensures LaunchFrom(table, if wayland then WaylandFirst(table) else table, termEnv, onPath, fullScript)
         == LaunchFrom(table, table, termEnv, onPath, fullScript)
  {
  }

  /** For the installer's table: a terminal is used exactly when a known
      one is on `PATH`, that terminal is on `PATH`, `$TERMINAL` wins, and
      the session type does not change the pick. */
  lemma ChosenLaunchFacts(termEnv: string, sessionType: string, onPath: set<string>, fullScript: string)
    ensures var launch := ChosenLaunch(termEnv, sessionType, onPath, fullScript);
      && (launch.InTerminal? <==> exists i :: 0 <= i < |Terminals| && Terminals[i].name in onPath)
      && (launch.InTerminal? ==> launch.argv[0] in onPath)
      && (launch.Headless? ==> launch.argv == ["bash", "-lc", fullScript])
      && (termEnv != [] && FirstNamed(Terminals, termEnv, onPath).Some? ==>
            launch == InTerminal(ArgvFor(FirstNamed(Terminals, termEnv, onPath).value, fullScript)))
      && launch == ChosenLaunch(termEnv, "x11", onPath, fullScript)
  {
    SessionIrrelevant(termEnv, sessionType, onPath, fullScript);
    SessionIrrelevant(termEnv, "x11", onPath, fullScript);
    TableStartsWithName();
    LaunchFromFacts(Terminals, termEnv, onPath, fullScript);
  }
}
