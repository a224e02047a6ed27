/** What a click on an item card leads to (`handle_action`): the
    compatibility gate, the NVIDIA package choice and its header check, an
    offer to open what is already there, and otherwise an install from the
    official repositories first, then Flatpak, then the AUR. */
module Action {
  import opened Wrappers
  import Text
  import ShellQuote
  import Gate
  import Packages
  import Script

  /** An entry of the item table: the packages, the command that opens the
      item ("" when none), its Flatpak application id ("" when none) and
      alternative packages that count as the item being present. */
  datatype ActionCfg = ActionCfg(packages: seq<string>, exec: string, flatpak: string, altPackages: seq<string>)

  function Pkgs(ps: seq<string>): ActionCfg {
    ActionCfg(ps, "", "", [])
  }

  function App(ps: seq<string>, exec: string, flatpak: string): ActionCfg {
    ActionCfg(ps, exec, flatpak, [])
  }

  /** The item table (`ACTION_MAP.get(id, {})`). No entry has alternative
      packages, every listed name is non-empty, every item with a Flatpak
      id also has a program to open, and an id outside the table has an
      empty entry. */
  function ActionFor(id: string): (cfg: ActionCfg)
    ensures cfg.altPackages == []
    ensures forall i :: 0 <= i < |cfg.packages| ==> cfg.packages[i] != []
    ensures cfg.flatpak != [] ==> cfg.exec != [] && cfg.packages != []
    ensures cfg.packages == [] ==> cfg == ActionCfg([], "", "", [])
  {
    if id == "intel-mesa" then Pkgs(["mesa", "vulkan-intel", "lib32-vulkan-intel", "vulkan-icd-loader", "lib32-vulkan-icd-loader"])
    else if id == "amd-mesa" then Pkgs(["mesa", "vulkan-radeon", "lib32-vulkan-radeon", "vulkan-icd-loader", "lib32-vulkan-icd-loader"])
    else if id == "gamemode" then Pkgs(["gamemode", "lib32-gamemode"])
    else if id == "tuned-performance" then Pkgs(["tuned"])
    else if id == "cpupower-performance" then Pkgs(["cpupower"])
    else if id == "zram" then Pkgs(["zram-generator"])
    else if id == "preload" then Pkgs(["preload"])
    else if id == "steam" then App(["steam"], "steam", "com.valvesoftware.Steam")
    else if id == "lutris" then App(["lutris"], "lutris", "net.lutris.Lutris")
    else if id == "heroic" then App(["heroic-games-launcher"], "heroic", "com.heroicgameslauncher.hgl")
    else if id == "protonplus" then App(["protonplus"], "protonplus", "com.vysp3r.ProtonPlus")
    else if id == "wine" then App(["wine", "winetricks", "dxvk-bin", "vkd3d", "vkd3d-proton", "samba"], "winecfg", "")
    else if id == "bottles" then App(["bottles"], "bottles", "com.usebottles.bottles")
    else if id == "mangohud" then Pkgs(["mangohud", "lib32-mangohud"])
    else if id == "steam-acolyte" then App(["steam-acolyte"], "steam-acolyte", "")
    else if id == "goverlay" then App(["goverlay"], "goverlay", "")
    else if id == "python-steam" then Pkgs(["python-steam"])
    else if id == "corectrl" then App(["corectrl"], "corectrl", "")
    else if id == "gwe" then App(["gwe", "greenwithenvy"], "gwe", "com.leinardi.gwe")
    else if id == "adwsteamgtk" then App(["adwsteamgtk"], "adwsteamgtk", "io.github.Foldex.AdwSteamGtk")
    else ActionCfg([], "", "", [])
  }

  /** What the installer observes about the machine. `cachedMgr` is the
      package manager chosen at start-up, `uname` the output of `uname -r`,
      `kernelPkgs`/`headerPkgs` the outputs of the installed-kernel and
      installed-header queries (`None` when a command failed). */
  datatype Machine = Machine(
    onPath: set<string>,
    repo: set<string>,
    installed: set<string>,
    flatpakAvailable: bool,
    flatpakInstalled: set<string>,
    cachedGpus: seq<string>,
    detectedGpus: seq<string>,
    gpuModules: seq<string>,
    cachedCpu: string,
    detectedCpu: string,
    uname: Option<string>,
    preferOpenEnv: Option<string>,
    kernelPkgs: Option<string>,
    headerPkgs: Option<string>,
    cachedMgr: Option<string>)

  /** Where a click ends. `OfferOpen` asks to open the item (in a terminal
      for command-line programs); `RunPipeline` is a pipeline handed to a
      terminal after the user confirmed. */
  datatype Outcome =
    | FlathubCard
    | Blocked(reason: Gate.BlockReason)
    | NeedHeaders(check: Packages.HeadersCheck)
    | OfferOpen(exe: string, inTerminal: bool)
    | OfferOpenFlatpak(appId: string)
    | NothingToInstall
    | MissingAurHelper(plan: Packages.HelperPlan)
    | ScriptUnavailable
    | Declined
    | RunPipeline(script: string, needRoot: bool)

  /** Programs opened in a terminal rather than started directly. */
  predicate CliLike(exe: string) {
    exe == "steam-acolyte" || exe == "paru" || exe == "yay"
  }

  /** The Flatpak install pipeline. */
  function FlatpakInstallScript(appId: string): string {
    "set -euo pipefail; flatpak install -y --or-update flathub " + ShellQuote.Quote(appId)
  }

  /** The package list and command of an item: the NVIDIA list for the
      NVIDIA driver, the table entry otherwise; Wine opens with winecfg. */
  function ItemCfg(id: string, m: Machine): ActionCfg {
    if id == "nvidia-driver" then
      Pkgs([Packages.NvidiaDriver(Packages.KernelVariant(m.uname), Packages.PreferOpen(m.preferOpenEnv), m.repo)]
           + Packages.NvidiaBase)
    else
      var cfg := ActionFor(id);
      if id == "wine" then cfg.(exec := "winecfg") else cfg
  }

  function HeaderCheck(m: Machine): Packages.HeadersCheck {
    var ver := Packages.KernelVariant(m.uname);
    Packages.EnsureKernelHeaders(ver, Packages.HeaderCandidates(ver, m.kernelPkgs, m.headerPkgs), m.repo, m.installed)
  }

  /** The names still to install: the missing ones after resolving virtual
      packages, none when an alternative is installed. */
  function ToInstall(cfg: ActionCfg, m: Machine): seq<string> {
    var missing := Packages.Missing(Packages.Resolved(cfg.packages, m.repo), m.installed);
    if missing != [] && cfg.altPackages != [] && Packages.AnyInstalled(cfg.altPackages, m.installed) then []
    else missing
  }

  /** An AUR helper has to be obtained first: the start-up package manager
      is none of paru, yay, pamac and neither helper is on `PATH`. */
  predicate NeedHelper(m: Machine) {
    && m.cachedMgr != Some("paru") && m.cachedMgr != Some("yay") && m.cachedMgr != Some("pamac")
    && "paru" !in m.onPath && "yay" !in m.onPath
  }

  /** An install through the package manager: a helper when one is needed,
      then the install script, then the user's confirmation. */
  function InstallWith(official: seq<string>, aur: seq<string>, needHelper: bool, m: Machine, confirm: bool): (o: Outcome)
    ensures o.MissingAurHelper? || o.ScriptUnavailable? || o.Declined? || o.RunPipeline?
    ensures o.RunPipeline? <==> confirm && !o.MissingAurHelper? && !o.ScriptUnavailable?
  {
    var plan := Packages.AurHelperPlan(m.onPath, m.repo);
    if needHelper && !plan.HelperFound? && m.cachedMgr != Some("pamac") then MissingAurHelper(plan)
    else
      var script := Script.BuildInstallScript(Script.ResolveManager(m.cachedMgr, m.onPath), m.onPath, official, aur);
      if script.None? then ScriptUnavailable
      else if !confirm then Declined
      else RunPipeline(script.value, true)
  }

  /** The install step for the names still to install: repositories first,
      Flatpak when nothing is in the repositories, the AUR otherwise. */
  function InstallStep(cfg: ActionCfg, toInstall: seq<string>, m: Machine, confirm: bool): (o: Outcome)
    ensures o.MissingAurHelper? || o.ScriptUnavailable? || o.Declined? || o.RunPipeline?
  {
    var (official, aur) := Packages.Partition(toInstall, Packages.WhichInOfficialRepos(toInstall, m.repo));
    if official != [] then InstallWith(official, aur, aur != [] && NeedHelper(m), m, confirm)
    else if cfg.flatpak != [] && m.flatpakAvailable then
      if !confirm then Declined else RunPipeline(FlatpakInstallScript(cfg.flatpak), false)
    else InstallWith([], toInstall, NeedHelper(m), m, confirm)
  }

  /** The ways a click ends after the header check and before anything is
      installed: the program is present, the Flatpak is present, or
      nothing is missing; `None` when there is something to install. */
  function PresentCheck(cfg: ActionCfg, m: Machine): (stop: Option<Outcome>)
    ensures stop.Some? ==> stop.value.OfferOpen? || stop.value.OfferOpenFlatpak? || stop.value.NothingToInstall?
    ensures stop.None? <==>
      (&& ToInstall(cfg, m) != []
       && !(cfg.exec != [] && cfg.exec in m.onPath)
       && !(cfg.flatpak != [] && m.flatpakAvailable && cfg.flatpak in m.flatpakInstalled))
  {
    if cfg.exec != [] && cfg.exec in m.onPath then Some(OfferOpen(cfg.exec, CliLike(cfg.exec)))
    else if cfg.flatpak != [] && m.flatpakAvailable && cfg.flatpak in m.flatpakInstalled then Some(OfferOpenFlatpak(cfg.flatpak))
    else if ToInstall(cfg, m) == [] then
      if cfg.exec != [] then Some(OfferOpen(cfg.exec, false)) else Some(NothingToInstall)
    else None
  }

  /** The ways a click ends before anything is installed, in the order
      they are checked; `None` when there is something to install. The
      header check fires, as written, only for the `nvidia-dkms` package. */
  function Precheck(id: string, m: Machine): (stop: Option<Outcome>)
    ensures stop.Some? ==> !(stop.value.RunPipeline? || stop.value.Declined? || stop.value.MissingAurHelper? || stop.value.ScriptUnavailable?)
    ensures stop.None? ==> id != "flathub" && ToInstall(ItemCfg(id, m), m) != []
    ensures stop.Some? && stop.value.NeedHeaders? ==>
      id == "nvidia-driver" && Packages.NeedsHeadersAsWritten(ItemCfg(id, m).packages) && !HeaderCheck(m).HeadersPresent?
  {
    if id == "flathub" then Some(FlathubCard)
    else
      var blocked := Gate.Gate(id, m.cachedGpus, m.detectedGpus, m.gpuModules, m.cachedCpu, m.detectedCpu);
      if blocked.Some? then Some(Blocked(blocked.value))
      else
        var cfg := ItemCfg(id, m);
        if id == "nvidia-driver" && Packages.NeedsHeadersAsWritten(cfg.packages) && !HeaderCheck(m).HeadersPresent? then
          Some(NeedHeaders(HeaderCheck(m)))
        else PresentCheck(cfg, m)
  }

  /** The same checks with the header check for every DKMS driver. */
  function PrecheckCorrected(id: string, m: Machine): (stop: Option<Outcome>)
    ensures stop.Some? ==> !(stop.value.RunPipeline? || stop.value.Declined? || stop.value.MissingAurHelper? || stop.value.ScriptUnavailable?)
    ensures stop.None? ==> id != "flathub" && ToInstall(ItemCfg(id, m), m) != []
    ensures stop.Some? && stop.value.NeedHeaders? ==>
      id == "nvidia-driver" && Packages.NeedsHeaders(ItemCfg(id, m).packages) && !HeaderCheck(m).HeadersPresent?
  {
    if id == "flathub" then Some(FlathubCard)
    else
      var blocked := Gate.Gate(id, m.cachedGpus, m.detectedGpus, m.gpuModules, m.cachedCpu, m.detectedCpu);
      if blocked.Some? then Some(Blocked(blocked.value))
      else
        var cfg := ItemCfg(id, m);
        if id == "nvidia-driver" && Packages.NeedsHeaders(cfg.packages) && !HeaderCheck(m).HeadersPresent? then
          Some(NeedHeaders(HeaderCheck(m)))
        else PresentCheck(cfg, m)
  }

  /** Where a click on item `id` ends, with `confirm` the user's answer to
      the install confirmation. */
  function Decide(id: string, m: Machine, confirm: bool): Outcome {
    var stop := Precheck(id, m);
    if stop.Some? then stop.value
    else
      var cfg := ItemCfg(id, m);
      InstallStep(cfg, ToInstall(cfg, m), m, confirm)
  }

  /** The same decision with the corrected header check. */
  function DecideCorrected(id: string, m: Machine, confirm: bool): Outcome {
    var stop := PrecheckCorrected(id, m);
    if stop.Some? then stop.value
    else
      var cfg := ItemCfg(id, m);
      InstallStep(cfg, ToInstall(cfg, m), m, confirm)
  }

  /** `handle_action`, composed from the operations it calls. */
  method HandleAction(id: string, m: Machine, confirm: bool) returns (outcome: Outcome)
    ensures outcome == Decide(id, m, confirm)
  {
    if id == "flathub" {
      return FlathubCard;
    }
    var blocked := Gate.Gate(id, m.cachedGpus, m.detectedGpus, m.gpuModules, m.cachedCpu, m.detectedCpu);
    if blocked.Some? {
      return Blocked(blocked.value);
    }
    var cfg: ActionCfg;
    if id == "nvidia-driver" {
      var ver := Packages.KernelVariant(m.uname);
      var pkgs := Packages.NvidiaPackages(ver, m.preferOpenEnv, m.repo);
      cfg := Pkgs(pkgs);
      if Packages.NeedsHeadersAsWritten(pkgs) {
        var check := EnsureKernelHeaders(m);
        if !check.HeadersPresent? {
          return NeedHeaders(check);
        }
      }
    } else {
      cfg := ActionFor(id);
      if id == "wine" {
        cfg := cfg.(exec := "winecfg");
      }
    }
    assert cfg == ItemCfg(id, m);
    var pkgs := Packages.ResolveVirtualPkgs(cfg.packages, m.repo);
    if cfg.exec != [] && cfg.exec in m.onPath {
      return OfferOpen(cfg.exec, CliLike(cfg.exec));
    }
    if cfg.flatpak != [] && m.flatpakAvailable && cfg.flatpak in m.flatpakInstalled {
      return OfferOpenFlatpak(cfg.flatpak);
    }
    var toInstall := Packages.MissingPackages(pkgs, m.installed);
    if toInstall != [] && cfg.altPackages != [] && Packages.AnyInstalled(cfg.altPackages, m.installed) {
      toInstall := [];
    }
    assert toInstall == ToInstall(cfg, m);
    if toInstall == [] {
      if cfg.exec != [] {
        return OfferOpen(cfg.exec, false);
      }
      return NothingToInstall;
    }
    outcome := Install(cfg, toInstall, m, confirm);
  }

  /** `_ensure_kernel_headers` as far as it decides anything. */
  method EnsureKernelHeaders(m: Machine) returns (check: Packages.HeadersCheck)
    ensures check == HeaderCheck(m)
  {
    var ver := Packages.KernelVariant(m.uname);
    var cands := Packages.HeaderPkgCandidates(ver, m.kernelPkgs, m.headerPkgs);
    check := Packages.EnsureKernelHeaders(ver, cands, m.repo, m.installed);
  }

  /** The source selection and install of `handle_action`. */
  method Install(cfg: ActionCfg, toInstall: seq<string>, m: Machine, confirm: bool) returns (outcome: Outcome)
    ensures outcome == InstallStep(cfg, toInstall, m, confirm)
  {
    var official, aur := Packages.SplitOfficialAur(toInstall, m.repo);
    if official != [] {
      outcome := RunInstall(official, aur, aur != [] && NeedHelper(m), m, confirm);
    } else if cfg.flatpak != [] && m.flatpakAvailable {
      if !confirm {
        return Declined;
      }
      return RunPipeline(FlatpakInstallScript(cfg.flatpak), false);
    } else {
      outcome := RunInstall([], toInstall, NeedHelper(m), m, confirm);
    }
  }

  method RunInstall(official: seq<string>, aur: seq<string>, needHelper: bool, m: Machine, confirm: bool)
    returns (outcome: Outcome)
    ensures outcome == InstallWith(official, aur, needHelper, m, confirm)
  {
    if needHelper {
      var plan := Packages.EnsureAurHelperAuto(m.onPath, m.repo);
      if !plan.HelperFound? && m.cachedMgr != Some("pamac") {
        return MissingAurHelper(plan);
      }
    }
    var script := Script.AssembleInstallScript(Script.ResolveManager(m.cachedMgr, m.onPath), m.onPath, official, aur);
    if script.None? {
      return ScriptUnavailable;
    }
    if !confirm {
      return Declined;
    }
    return RunPipeline(script.value, true);
  }

  // ---------------------------------------------------------------------------
  // Properties of the decision
  // ---------------------------------------------------------------------------

  /** The gate comes first: a refused driver item ends there, whatever else
      holds. */
  lemma BlockedBeforeAnything(id: string, m: Machine, confirm: bool)
    requires id != "flathub"
    requires Gate.Gate(id, m.cachedGpus, m.detectedGpus, m.gpuModules, m.cachedCpu, m.detectedCpu).Some?
    ensures Decide(id, m, confirm).Blocked?
    ensures Decide(id, m, confirm).reason == Gate.Gate(id, m.cachedGpus, m.detectedGpus, m.gpuModules, m.cachedCpu, m.detectedCpu).value
  {
  }

  /** The confirmation decides only whether the prepared pipeline runs. */
  lemma InstallStepConfirm(cfg: ActionCfg, toInstall: seq<string>, m: Machine)
    ensures !InstallStep(cfg, toInstall, m, false).RunPipeline?
    ensures !InstallStep(cfg, toInstall, m, true).Declined?
    ensures InstallStep(cfg, toInstall, m, false).Declined? <==> InstallStep(cfg, toInstall, m, true).RunPipeline?
    ensures !InstallStep(cfg, toInstall, m, true).RunPipeline? ==>
      InstallStep(cfg, toInstall, m, true) == InstallStep(cfg, toInstall, m, false)
  {
  }

  /** Nothing runs without the user's confirmation, and the answer changes
      nothing but whether the pipeline runs. */
  lemma ConfirmOnlyGatesTheRun(id: string, m: Machine)
    ensures !Decide(id, m, false).RunPipeline?
    ensures !Decide(id, m, true).Declined?
    ensures Decide(id, m, false).Declined? <==> Decide(id, m, true).RunPipeline?
    ensures !Decide(id, m, true).RunPipeline? ==> Decide(id, m, true) == Decide(id, m, false)
  {
    var cfg := ItemCfg(id, m);
    InstallStepConfirm(cfg, ToInstall(cfg, m), m);
  }

  /** With every listed package installed (after resolution), a click never
      installs anything: it offers to open the item or says there is
      nothing to install (or stops earlier at the gate or the header
      check). */
  lemma NoReinstall(id: string, m: Machine, confirm: bool)
    requires id != "flathub"
    requires var pkgs := Packages.Resolved(ItemCfg(id, m).packages, m.repo);
      forall i :: 0 <= i < |pkgs| ==> pkgs[i] == [] || pkgs[i] in m.installed
    ensures var o := Decide(id, m, confirm);
      o.Blocked? || o.NeedHeaders? || o.OfferOpen? || o.OfferOpenFlatpak? || o.NothingToInstall?
    ensures var o := Decide(id, m, confirm); var cfg := ItemCfg(id, m);
      !o.Blocked? && !o.NeedHeaders? ==>
        (o.NothingToInstall? <==> cfg.exec == [] && !(cfg.flatpak != [] && m.flatpakAvailable && cfg.flatpak in m.flatpakInstalled))
    ensures var o := Decide(id, m, confirm); var cfg := ItemCfg(id, m);
      o.OfferOpen? ==> cfg.exec != [] && o.exe == cfg.exec
    ensures var o := Decide(id, m, confirm); var cfg := ItemCfg(id, m);
      o.OfferOpenFlatpak? ==> o.appId == cfg.flatpak && cfg.flatpak in m.flatpakInstalled
  {
    var cfg := ItemCfg(id, m);
    var pkgs := Packages.Resolved(cfg.packages, m.repo);
    var missing := Packages.Missing(pkgs, m.installed);
    if missing != [] {
      Packages.MissingMembership(pkgs, m.installed, missing[0]);
      assert false;
    }
    assert ToInstall(cfg, m) == [];
    NothingMissingOpens(cfg, m);
  }

  /** With nothing to install, the item's program or Flatpak is offered to
      be opened, and only an item with neither is reported as having
      nothing to install. */
  lemma NothingMissingOpens(cfg: ActionCfg, m: Machine)
    requires ToInstall(cfg, m) == []
    ensures PresentCheck(cfg, m).Some?
    ensures var o := PresentCheck(cfg, m).value;
      && (o.NothingToInstall? <==> cfg.exec == [] && !(cfg.flatpak != [] && m.flatpakAvailable && cfg.flatpak in m.flatpakInstalled))
      && (o.OfferOpen? ==> cfg.exec != [] && o.exe == cfg.exec)
      && (o.OfferOpenFlatpak? ==> o.appId == cfg.flatpak && cfg.flatpak in m.flatpakInstalled)
  {
  }

  /** The repositories come before Flatpak: a Flatpak install happens only
      when none of the names to install is in the official repositories,
      and then it installs the item's own application id without root. */
  lemma RepositoriesBeforeFlatpak(cfg: ActionCfg, toInstall: seq<string>, m: Machine, confirm: bool)
    requires InstallStep(cfg, toInstall, m, confirm).RunPipeline? && !InstallStep(cfg, toInstall, m, confirm).needRoot
    ensures cfg.flatpak != [] && m.flatpakAvailable
    ensures InstallStep(cfg, toInstall, m, confirm).script == FlatpakInstallScript(cfg.flatpak)
    ensures forall i :: 0 <= i < |toInstall| ==> toInstall[i] !in m.repo || toInstall[i] == []
  {
    var official := Packages.WhichInOfficialRepos(toInstall, m.repo);
    assert Packages.Partition(toInstall, official).0 == [];
    Packages.PartitionFirstEmpty(toInstall, official);
  }

  /** The same for a whole click. */
  lemma ClickRepositoriesBeforeFlatpak(id: string, m: Machine, confirm: bool)
    requires Decide(id, m, confirm).RunPipeline? && !Decide(id, m, confirm).needRoot
    ensures var cfg := ItemCfg(id, m);
      && cfg.flatpak != [] && m.flatpakAvailable
      && Decide(id, m, confirm).script == FlatpakInstallScript(cfg.flatpak)
      && forall i :: 0 <= i < |ToInstall(cfg, m)| ==> ToInstall(cfg, m)[i] !in m.repo || ToInstall(cfg, m)[i] == []
  {
    var cfg := ItemCfg(id, m);
    RepositoriesBeforeFlatpak(cfg, ToInstall(cfg, m), m, confirm);
  }

  /** Without a start-up package manager that builds AUR packages and with
      neither paru nor yay on `PATH`, every install that needs the AUR
      stops with the helper missing (an install of a helper may have been
      launched), unless the manager is pamac. */
  lemma AurNeedsHelper(official: seq<string>, aur: seq<string>, m: Machine, confirm: bool)
    requires NeedHelper(m)
    ensures InstallWith(official, aur, true, m, confirm) == MissingAurHelper(Packages.AurHelperPlan(m.onPath, m.repo))
  {
    Packages.AurHelperPlanFacts(m.onPath, m.repo);
  }

  /** A pipeline that installs through the package manager starts in strict
      mode. */
  lemma InstallWithStrict(official: seq<string>, aur: seq<string>, needHelper: bool, m: Machine, confirm: bool)
    requires InstallWith(official, aur, needHelper, m, confirm).RunPipeline?
    ensures Text.StartsWith(InstallWith(official, aur, needHelper, m, confirm).script, "set -euo pipefail")
    ensures InstallWith(official, aur, needHelper, m, confirm).needRoot
  {
  }

  /** The same for a whole click: every root pipeline of a click is an
      install script in strict mode. */
  lemma InstallPipelineStrict(id: string, m: Machine, confirm: bool)
    requires Decide(id, m, confirm).RunPipeline? && Decide(id, m, confirm).needRoot
    ensures Text.StartsWith(Decide(id, m, confirm).script, "set -euo pipefail")
  {
    var cfg := ItemCfg(id, m);
    var toInstall := ToInstall(cfg, m);
    var (official, aur) := Packages.Partition(toInstall, Packages.WhichInOfficialRepos(toInstall, m.repo));
    if official != [] {
      InstallWithStrict(official, aur, aur != [] && NeedHelper(m), m, confirm);
    } else if !(cfg.flatpak != [] && m.flatpakAvailable) {
      InstallWithStrict([], toInstall, NeedHelper(m), m, confirm);
    }
  }

  /** An item whose program is already on `PATH` is offered to be opened
      (in a terminal for command-line programs) rather than installed. */
  lemma PresentProgramOpens(id: string, m: Machine, confirm: bool)
    requires id != "flathub" && id != "nvidia-driver"
    requires Gate.Gate(id, m.cachedGpus, m.detectedGpus, m.gpuModules, m.cachedCpu, m.detectedCpu).None?
    requires ItemCfg(id, m).exec != [] && ItemCfg(id, m).exec in m.onPath
    ensures Decide(id, m, confirm) == OfferOpen(ItemCfg(id, m).exec, CliLike(ItemCfg(id, m).exec))
  {
  }

  /** The NVIDIA driver: when the chosen driver is `nvidia-dkms` and no
      kernel headers are installed, the click stops at the header check. */
  lemma DkmsDriverNeedsHeaders(m: Machine, confirm: bool)
    requires Gate.Gate("nvidia-driver", m.cachedGpus, m.detectedGpus, m.gpuModules, m.cachedCpu, m.detectedCpu).None?
    requires Packages.NvidiaDriver(Packages.KernelVariant(m.uname), Packages.PreferOpen(m.preferOpenEnv), m.repo) == "nvidia-dkms"
    requires !HeaderCheck(m).HeadersPresent?
    ensures Decide("nvidia-driver", m, confirm) == NeedHeaders(HeaderCheck(m))
  {
    var cfg := ItemCfg("nvidia-driver", m);
    assert cfg.packages[0] == "nvidia-dkms";
    assert Packages.NeedsHeadersAsWritten(cfg.packages);
    assert Precheck("nvidia-driver", m) == Some(NeedHeaders(HeaderCheck(m)));
  }

  /** As written, the open DKMS driver passes the header check even when
      no kernel headers are installed, while the corrected decision stops
      there. */
  lemma OpenDkmsPassesHeaderCheck(m: Machine, confirm: bool)
    requires Gate.Gate("nvidia-driver", m.cachedGpus, m.detectedGpus, m.gpuModules, m.cachedCpu, m.detectedCpu).None?
    requires Packages.NvidiaDriver(Packages.KernelVariant(m.uname), Packages.PreferOpen(m.preferOpenEnv), m.repo) == "nvidia-open-dkms"
    requires !HeaderCheck(m).HeadersPresent?
    ensures !Decide("nvidia-driver", m, confirm).NeedHeaders?
    ensures DecideCorrected("nvidia-driver", m, confirm) == NeedHeaders(HeaderCheck(m))
  {
    var cfg := ItemCfg("nvidia-driver", m);
    assert cfg.packages == ["nvidia-open-dkms"] + Packages.NvidiaBase;
    Packages.OpenDkmsListChecks();
    assert PrecheckCorrected("nvidia-driver", m) == Some(NeedHeaders(HeaderCheck(m)));
  }

  /** The corrected decision: whenever the chosen driver is built by DKMS
      and no kernel headers are installed, the click stops at the header
      check. */
  lemma DkmsDriverNeedsHeadersCorrected(m: Machine, confirm: bool)
    requires Gate.Gate("nvidia-driver", m.cachedGpus, m.detectedGpus, m.gpuModules, m.cachedCpu, m.detectedCpu).None?
    requires Packages.IsDkms(Packages.NvidiaDriver(Packages.KernelVariant(m.uname), Packages.PreferOpen(m.preferOpenEnv), m.repo))
    requires !HeaderCheck(m).HeadersPresent?
    ensures DecideCorrected("nvidia-driver", m, confirm) == NeedHeaders(HeaderCheck(m))
  {
    var d := Packages.NvidiaDriver(Packages.KernelVariant(m.uname), Packages.PreferOpen(m.preferOpenEnv), m.repo);
    var cfg := ItemCfg("nvidia-driver", m);
    assert cfg.packages[0] == d;
    assert Packages.NeedsHeaders(cfg.packages);
    assert PrecheckCorrected("nvidia-driver", m) == Some(NeedHeaders(HeaderCheck(m)));
  }

  /** Flatpak comes before the AUR: when none of the names to install is in
      the official repositories, an item with a Flatpak id installs that
      Flatpak when Flatpak is available, and otherwise everything goes to
      the AUR. */
  lemma FlatpakBeforeAur(cfg: ActionCfg, toInstall: seq<string>, m: Machine, confirm: bool)
    requires forall i :: 0 <= i < |toInstall| ==> toInstall[i] !in m.repo
    ensures cfg.flatpak != [] && m.flatpakAvailable ==>
      InstallStep(cfg, toInstall, m, confirm) == (if confirm then RunPipeline(FlatpakInstallScript(cfg.flatpak), false) else Declined)
    ensures !(cfg.flatpak != [] && m.flatpakAvailable) ==>
      InstallStep(cfg, toInstall, m, confirm) == InstallWith([], toInstall, NeedHelper(m), m, confirm)
  {
    Packages.PartitionFirstEmpty(toInstall, Packages.WhichInOfficialRepos(toInstall, m.repo));
  }

  /** The same for a whole click that gets past the checks. */
  lemma ClickFlatpakBeforeAur(id: string, m: Machine, confirm: bool)
    requires Precheck(id, m).None?
    requires var t := ToInstall(ItemCfg(id, m), m); forall i :: 0 <= i < |t| ==> t[i] !in m.repo
    ensures var cfg := ItemCfg(id, m);
      cfg.flatpak != [] && m.flatpakAvailable ==>
        Decide(id, m, confirm) == (if confirm then RunPipeline(FlatpakInstallScript(cfg.flatpak), false) else Declined)
    ensures var cfg := ItemCfg(id, m);
      !(cfg.flatpak != [] && m.flatpakAvailable) ==>
        Decide(id, m, confirm) == InstallWith([], ToInstall(cfg, m), NeedHelper(m), m, confirm)
  {
    var cfg := ItemCfg(id, m);
    FlatpakBeforeAur(cfg, ToInstall(cfg, m), m, confirm);
  }
}
