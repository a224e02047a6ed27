# gnu-shark installer core in Dafny

gnu-shark is a GTK front end for Arch-based distributions (Arch, Manjaro,
BigLinux, CachyOS). It installs gaming drivers, tools and tweaks. A click on an
item goes through these steps:

- a hardware gate;
- a package plan: virtual packages resolved, installed names dropped,
  official repositories first, then Flatpak, then the AUR;
- an install script built from that plan;
- a pipeline handed to a terminal, which reaches root directly as root,
  through pkexec and a small wrapper program, or through sudo.

This project models that decision logic of `gnushark.py` and proves what it
promises.

What the program reads from the machine becomes parameters:

- the set of programs on `PATH`;
- the set of names the official repositories carry;
- the set of installed packages;
- the text of files and command outputs (`None` when a read or a command
  failed);
- the effective user id and the environment variables it consults.

Modules, one per part of the program:

- `Text`, `Seqs`, `ShellQuote`: the string, list and quoting operations the
  program relies on. These are Python's `str` methods, `dict.fromkeys`,
  `shlex.quote`, and a model of how a shell splits the quoted words back.
- `Detect`: distribution, package manager, CPU and GPU probes.
- `Zram`: the compressed-swap sizing heuristic.
- `Packages`: package-state resolution, kernel-header matching, NVIDIA driver
  selection and the AUR helper.
- `Gate`: the hardware compatibility gate.
- `Script`: the install script, the run modes and their root primitives, and
  the final pipeline with its sentinel.
- `Terminal`: the terminal table and the choice of terminal.
- `Action`: `handle_action` composed from the above, ending in an `Outcome`.
- `Policy`: a `RootRunner` class. It holds the on-disk policy state, the
  re-entrancy flag and the log of launched pipelines. It models
  `_ensure_polkit_policy` and the run-mode part of
  `_open_terminal_and_run_pipeline`.

Loops in the source become methods with loop invariants. Each such method is
proved equal to a specification function, and the lemmas are about those
functions.

## Model

| member | source | states |
|---|---|---|
| Text.ParseIntOfNat | gnushark.py:1789-1790 | `int()` reads back every decimal rendering of a natural number |
| Text.NatToStringInjective | gnushark.py:1422 | different numbers have different decimal renderings |
| Seqs.Dedup | gnushark.py:1563-1567 | the result has the same members as the input, no repeats, and is no longer than the input |
| Seqs.DedupInOrder | gnushark.py:1563-1567 | the first-occurrence loop computes exactly `Dedup` |
| Seqs.DedupHead | gnushark.py:1563-1567 | the first element of the input stays first |
| Seqs.DedupIdempotent | gnushark.py:644 | de-duplicating twice equals de-duplicating once |
| Seqs.DedupOfDistinct | gnushark.py:644 | a list without repeats is returned unchanged |
| ShellQuote.Quote | gnushark.py:2229-2231 | a non-empty word of safe characters is returned as is; anything else comes back wrapped in single quotes |
| ShellQuote.QuoteEach | gnushark.py:1512 | each name is quoted on its own, in order |
| ShellQuote.WordsOfQuoteAll | gnushark.py:1512 | splitting the space-joined quoted names with shell rules gives back exactly the names (round trip) |
| ShellQuote.WordsOfCommand | gnushark.py:1510-1527 | a command of safe words followed by quoted package names splits into the command words, then the names |
| ShellQuote.WordsOfBashLc | gnushark.py:1445 | `bash -lc <quoted script>` splits into `bash`, `-lc` and the script unchanged |
| Detect.Classify | gnushark.py:585-596 | the id is one of cachyos, biglinux, manjaro, arch, unknown; the display name is never empty, and it is PRETTY_NAME when that is set |
| Detect.DetectDistro | gnushark.py:567-596 | an unreadable os-release gives ("unknown", "Linux") |
| Detect.ClassifyPriority | gnushark.py:585-596 | cachyos in ID or ID_LIKE wins; biglinux exactly when no cachyos and biglinux in either field; manjaro exactly when neither of those and manjaro in either field; "arch" exactly when no derivative matches and ID is arch or ID_LIKE contains arch; "unknown" exactly when nothing matches |
| Detect.OsReleaseLastWins | gnushark.py:569-578 | the last `KEY=value` line for a key decides its value, stripped of blanks and quotes |
| Detect.OsReleaseSkipsPlainLines | gnushark.py:571-576 | a line without `=` changes no value |
| Detect.PickPkgManager | gnushark.py:599-604 | a chosen manager is one of pamac, pacman, paru, yay and is on `PATH` |
| Detect.PickPkgManagerFirst | gnushark.py:599-604 | none is chosen exactly when none is on `PATH`; the chosen one comes before every other one on `PATH` in that order |
| Detect.CpuVendor | gnushark.py:618-633 | the vendor is "intel", "amd" or empty |
| Detect.CpuVendorCharacterised | gnushark.py:618-633 | "intel" exactly when the lower-cased text mentions intel; "amd" exactly when it mentions amd and not intel |
| Detect.GpuList | gnushark.py:635-644 | each vendor is listed exactly when its test holds, at most once |
| Detect.GpuVendorsFromLspciAsWritten | gnushark.py:635-644 | the lspci probe as written lists each vendor at most once; nvidia and intel are listed exactly when named, amd exactly when `amd` or `ati` occurs anywhere in the lower-cased output |
| Detect.LspciAtiMatchesCompatible | gnushark.py:640-641 | as written, any output containing "compatible" reports an AMD GPU |
| Detect.LspciIntelOnlyAsWritten | gnushark.py:635-644 | as written, an Intel-only `VGA compatible controller` line yields ["amd", "intel"] |
| Detect.GpuVendorsFromLspci | gnushark.py:635-644 | corrected probe: nvidia, amd and intel are each listed exactly when named, with `ati` matched as a word; no repeats |
| Detect.LspciIntelOnly | gnushark.py:635-644 | the corrected probe yields ["intel"] for the Intel-only line |
| Detect.VendorOfPciId | gnushark.py:653-662 | nvidia exactly for the stripped, lower-cased text 10de or 0x10de, amd exactly for 1002 or 0x1002, intel exactly for 8086 or 0x8086, otherwise none |
| Detect.GpuVendorsFromSysfs | gnushark.py:646-666 | the loop over the card vendor files computes the de-duplicated vendors they name, in file order |
| Detect.SysfsVendorsMembership | gnushark.py:646-666 | a vendor is reported exactly when some readable card file names it; no repeats, only GPU vendors |
| Detect.GpuModulesPresent | gnushark.py:668-677 | nvidia exactly when lsmod shows nvidia; amd exactly for amdgpu or radeon; intel exactly for i915; no repeats |
| Detect.DetectGpuVendors | gnushark.py:679-684 | the as-written lspci result when it is non-empty, else the deduplicated sysfs result; always distinct GPU vendors |
| Detect.DetectGpuVendorsCorrected | gnushark.py:679-684 | the same composition over the corrected lspci probe |
| Zram.SizeMib | gnushark.py:1812-1822 | the size is a multiple of 256 MiB, at least 256 and at most 16384; once the raw size is at least 256 it is that size rounded down to a multiple of 256, below 256 it is 256; never more than the RAM once the RAM is at least 256 MiB |
| Zram.Compression | gnushark.py:1824 | lzo-rle up to 2 cores, lz4 up to 8, zstd above |
| Zram.Swappiness | gnushark.py:1825 | 100 up to 8 GiB of RAM, 80 up to 16 GiB, 60 above |
| Zram.ChooseZramParams | gnushark.py:1808-1826 | the algorithm and swappiness follow the core count and RAM bands |
| Zram.SizeLabelRoundTrip | gnushark.py:1823 | the size label reads back as exactly the chosen size; it ends in G exactly when the size is whole gibibytes |
| Zram.ZramSizeBounds | gnushark.py:1812-1823 | the label of every choice names a size that is a multiple of 256 MiB, at least 256 and within the RAM |
| Zram.ZramExample8G | gnushark.py:1808-1826 | 8 GiB and 4 cores give ("6G", "lz4", 100) |
| Zram.ZramExample16G | gnushark.py:1808-1826 | 16 GiB and 10 cores give ("8G", "zstd", 80) |
| Zram.ZramExampleLarge | gnushark.py:1808-1826 | 100000 MiB and 16 cores give ("16G", "zstd", 60) |
| Zram.ZramExampleSmall | gnushark.py:1808-1826 | 2 GiB and 1 core give ("2G", "lzo-rle", 100) |
| Zram.DetectTotalRamMib | gnushark.py:1784-1798 | a reference definition of the probe: without a usable MemTotal and with `free` failing the result is 4096; with /proc/meminfo unreadable it is 4096 or the number `free` printed; `Zram.MeminfoPreferred` and `Zram.FreeFallback` state the order |
| Zram.MemTotalParsed | gnushark.py:1787-1791 | the first `MemTotal:` line decides, and its kB figure is read |
| Zram.MeminfoPreferred | gnushark.py:1785-1791 | with a MemTotal line in /proc/meminfo, the RAM is its kB figure divided by 1024, whatever `free` says |
| Zram.FreeFallback | gnushark.py:1793-1798 | without a usable MemTotal, the number printed by `free -m` is used, else 4096 |
| Packages.Resolved | gnushark.py:1243-1256 | one name per input name, in order, each resolved on its own |
| Packages.ResolveVirtualPkgs | gnushark.py:1243-1256 | the loop computes `Resolved` |
| Packages.ResolvedFacts | gnushark.py:1246-1256 | only vkd3d-proton is ever replaced; it is kept only when the repositories carry it; resolving twice changes nothing |
| Packages.MissingPackages | gnushark.py:1259-1277 | the loop computes `Missing` |
| Packages.MissingMembership | gnushark.py:1271-1277 | a name is missing exactly when it is listed, non-empty and not installed |
| Packages.AnyInstalledIff | gnushark.py:1279-1285 | the size comparison holds exactly when some non-empty listed name is installed |
| Packages.Partition | gnushark.py:1287-1294 | the two parts together are as long as the input |
| Packages.SplitOfficialAur | gnushark.py:1287-1294 | the loop computes the partition by the official-repository set |
| Packages.SplitFacts | gnushark.py:1287-1294 | the parts together are a permutation of the input; every official name is non-empty and in the repositories, and no AUR name is |
| Packages.PartitionFirstEmpty | gnushark.py:1291-1294 | the official part is empty exactly when no name is official |
| Packages.PartitionFacts | gnushark.py:1291-1294 | the parts are a permutation of the input, split by membership |
| Packages.DetectInitramfsTool | gnushark.py:1296-1302 | dracut exactly when mkinitcpio is absent and dracut present, otherwise mkinitcpio, each with its own regeneration command |
| Packages.KernelHeaderLines | gnushark.py:1547-1554 | the loop yields `<kernel>-headers` for each installed kernel line, stripped, that starts with linux, in order |
| Packages.HeaderPkgLines | gnushark.py:1556-1562 | the loop yields each installed header package line, stripped, blank ones dropped, in order |
| Packages.FlavourCandidates | gnushark.py:1541-1545 | the flavour headers in the order zen, lts, hardened, cachyos |
| Packages.HeaderPkgCandidates | gnushark.py:1539-1567 | the method computes the de-duplicated candidate list |
| Packages.HeaderCandidatesFacts | gnushark.py:1539-1567 | candidates have no repeats and the same members as the raw list; linux-headers is always one; a zen kernel puts linux-zen-headers first |
| Packages.FirstFlavourMatch | gnushark.py:1573-1577 | a match is the first candidate of the kernel's flavour (no earlier candidate matches), and none means no candidate matches |
| Packages.FirstInRepo | gnushark.py:1578-1580 | a match is the first candidate the repositories carry (no earlier one is carried), and none means none is carried |
| Packages.MatchingHeaderPkg | gnushark.py:1569-1581 | the method computes the flavour match first, else the first candidate in the repositories |
| Packages.MatchingHeaderFacts | gnushark.py:1569-1581 | the match is always a candidate; on a zen kernel it is linux-zen-headers |
| Packages.HeadersInstalledIff | gnushark.py:1583-1590 | headers count as installed exactly when some candidate is installed |
| Packages.EnsureKernelHeaders | gnushark.py:2172-2190 | headers present exactly when installed; otherwise the package offered is the non-empty matching header package, and there is no candidate exactly when the match is missing or empty |
| Packages.KernelVariant | gnushark.py:1532-1537 | `uname -r` stripped and lower-cased: "" when the command fails; an output without whitespace is returned letter by letter lower-cased; never an upper-case ASCII letter or whitespace at either end, never longer than the output |
| Packages.NvidiaPackages | gnushark.py:2192-2222 | the driver for the kernel and preference, followed by the four base packages |
| Packages.NvidiaDriverRules | gnushark.py:2192-2222 | proprietary unless the open driver is requested and available; DKMS builds for flavoured kernels; nvidia-lts exactly on lts kernels |
| Packages.OpenDkmsSkipsHeaderCheck | gnushark.py:1885 | as written, nvidia-open-dkms on a flavoured kernel is a DKMS driver that skips the header check |
| Packages.NeedsHeadersIffDkmsDriver | gnushark.py:1885 | corrected check: headers are needed exactly when the chosen driver is a DKMS build, nvidia-dkms or nvidia-open-dkms |
| Packages.BaseNotDkms | gnushark.py:2196 | no base package is a DKMS build |
| Packages.DriverNames | gnushark.py:2201-2221 | the driver is one of five names; nvidia-dkms only on flavoured kernels |
| Packages.EnsureAurHelperAuto | gnushark.py:1763-1782 | the method computes the helper plan |
| Packages.AurHelperPlanFacts | gnushark.py:1763-1782 | a helper on `PATH` is used, paru first; otherwise paru from the repositories is installed; nothing is possible exactly when neither helper is on `PATH` or in the repositories and pamac is absent |
| Packages.ScriptsDiffer | gnushark.py:1771-1779 | the three helper install pipelines are different scripts |
| Gate.GateVendors | gnushark.py:1738-1739 | loaded-module vendors always count; with a non-empty cached list exactly the cached and module vendors count, otherwise the fresh detection and the module vendors |
| Gate.GateCpu | gnushark.py:1740 | the CPU is never empty; it is amd exactly when the cache, or the detection when nothing is cached, says amd |
| Gate.Gate | gnushark.py:1737-1760 | the whole gate on the raw probes: a refusal happens exactly for a driver item whose vendor is neither in the cached (else freshly detected) GPU list nor among the loaded modules; the AMD-CPU reason exactly for a refused intel-mesa with the cached (else detected) CPU vendor amd |
| Gate.BlockIncompatible | gnushark.py:1745-1760 | a refusal happens exactly for a driver item without its vendor; the AMD-CPU message exactly for intel-mesa on an AMD CPU |
| Gate.OnlyDriversBlocked | gnushark.py:1745-1760 | items other than the three drivers always pass |
| Gate.MoreVendorsBlockLess | gnushark.py:1745-1760 | detecting more vendors never refuses more |
| Gate.LoadedModuleUnblocks | gnushark.py:1739 | a loaded module of the vendor lets its driver through |
| Gate.EmptyCacheUsesFreshDetection | gnushark.py:1738-1740 | with nothing cached the decision is the fresh detection's |
| Script.ResolveManager | gnushark.py:1507 | a cached non-empty manager is kept, otherwise a fresh pick; none exactly when nothing is cached and no known manager is on `PATH`; a result is never empty |
| Script.AurHelperFor | gnushark.py:1519 | the manager itself when it is paru or yay; otherwise paru when on `PATH`, else yay when on `PATH`, else none |
| Script.BuildInstallScript | gnushark.py:1505-1530 | no script exactly when there is no manager, or there are AUR names but no helper and the manager is not pamac; a script starts with strict mode |
| Script.AssembleInstallScript | gnushark.py:1505-1530 | the step-by-step build of the lines computes `BuildInstallScript` |
| Script.InstallLinesShape | gnushark.py:1509-1529 | strict mode first, then one repository line if there are official names, then one AUR line if there are AUR names |
| Script.CommandLineWords | gnushark.py:1512-1526 | each install command line splits into its command words followed by the package names |
| Script.InstallCommandsWords | gnushark.py:1512-1526 | the same for the helper and repository commands the script uses |
| Script.RunModeFor | gnushark.py:1379-1386 | user exactly without root need; euid 0, else pkexec when on `PATH`, else sudo |
| Script.SudoFlags | gnushark.py:1405-1406 | the flags end in `-k`, and contain `-A` exactly when `SUDO_ASKPASS` is set |
| Script.RootPrimitiveFor | gnushark.py:1388-1419 | each run mode has its own root primitive, with the sudo flags under sudo |
| Script.SentinelSafe | gnushark.py:1422-1428 | the sentinel path needs no quoting |
| Script.SentinelInjective | gnushark.py:1422 | different process id or time gives a different sentinel |
| Script.FullScriptBody | gnushark.py:1423-1429 | the pipeline starts with `set -e` and carries its body verbatim: same helpers and sentinel, same pipeline only for the same body |
| Script.FullScriptEndsWithSentinel | gnushark.py:1423-1429 | the pipeline ends by writing the unquoted sentinel path, then `sync` and `true` |
| Terminal.Preferred | gnushark.py:1449 | only Wayland-preferred terminals |
| Terminal.Others | gnushark.py:1449 | only the other terminals |
| Terminal.WaylandFirstPermutes | gnushark.py:1449 | the Wayland sort is a permutation of the table |
| Terminal.WaylandFirstOfGrouped | gnushark.py:1449 | the sort is stable: a table already grouped is unchanged |
| Terminal.TablePreferences | gnushark.py:931-954 | the six Wayland-preferred terminals come first in the table |
| Terminal.WaylandOrderOfTable | gnushark.py:1448-1449 | the Wayland order of the shipped table is the table itself |
| Terminal.TableShape | gnushark.py:931-954 | every entry starts with its own command and either takes one string or ends with `bash -lc` |
| Terminal.ArgvRunsScript | gnushark.py:1445-1453 | every terminal's argv runs exactly `bash -lc <full script>` |
| Terminal.FirstNamed | gnushark.py:1431-1436 | the first entry with the requested name on `PATH` (no earlier entry qualifies); none means there is no such entry |
| Terminal.FirstAvailable | gnushark.py:1450-1454 | the first entry on `PATH` (no earlier entry is on `PATH`); none means no entry is |
| Terminal.FindNamed | gnushark.py:1431-1436 | the loop computes `FirstNamed` |
| Terminal.TerminalCmdFor | gnushark.py:1431-1436 | the lookup of `$TERMINAL` in the table |
| Terminal.LaunchFromTable | gnushark.py:1438-1456 | the loop computes the launch |
| Terminal.ChooseLaunch | gnushark.py:1438-1456 | the method computes the launch from `$TERMINAL`, the session type and `PATH` |
| Terminal.LaunchFromFacts | gnushark.py:1438-1456 | a terminal is used exactly when one is on `PATH`, and it is on `PATH`; `$TERMINAL` wins when available; headless runs `bash -lc <script>` |
| Terminal.SessionIrrelevant | gnushark.py:1447-1449 | with the shipped table, the session type never changes the launch |
| Terminal.ChosenLaunchFacts | gnushark.py:1438-1456 | the launch facts for the shipped table, the same on X11 and Wayland |
| Action.ActionFor | gnushark.py:891-923 | a reference definition of the item table: no entry has alternative packages, every listed name is non-empty, every item with a Flatpak id also has a program and packages, and an id outside the table gets the empty entry |
| Action.PresentCheck | gnushark.py:1959-1994 | a present program, a present Flatpak or nothing missing ends the click with an offer to open or nothing to install; otherwise there is something to install and neither is present |
| Action.Precheck | gnushark.py:1874-1994 | the early exits never launch an install; passing them means the item is not the flathub card and something is still to install; the header stop happens only for the NVIDIA item with `nvidia-dkms` in its list and no headers |
| Action.PrecheckCorrected | gnushark.py:1874-1994 | the same with the header stop for any DKMS driver |
| Action.HandleAction | gnushark.py:1864-2064 | the method computes `Decide`, the decision as written |
| Action.EnsureKernelHeaders | gnushark.py:2172-2190 | the method computes the header check of the machine |
| Action.Install | gnushark.py:2015-2064 | the method computes the install step |
| Action.RunInstall | gnushark.py:2020-2036 | the method computes the package-manager install |
| Action.BlockedBeforeAnything | gnushark.py:1878-1879 | a gate refusal ends the click with that reason |
| Action.InstallStepConfirm | gnushark.py:2034-2064 | a pipeline runs only when confirmed; a confirmed install is never declined; declining changes nothing else |
| Action.ConfirmOnlyGatesTheRun | gnushark.py:2034-2064 | the same for a whole click |
| Action.NoReinstall | gnushark.py:1977-1994 | when every package is installed no install is launched; past the gate and header check, an item with a program is offered to open it, a present Flatpak to open that, and only an item with neither has nothing to install |
| Action.NothingMissingOpens | gnushark.py:1959-1994 | with nothing to install, the same split at the level of the presence checks |
| Action.RepositoriesBeforeFlatpak | gnushark.py:2020-2045 | a Flatpak install happens only when the item has a Flatpak id, Flatpak is available and no missing name is in the repositories |
| Action.ClickRepositoriesBeforeFlatpak | gnushark.py:2015-2045 | the same for a whole click |
| Action.FlatpakBeforeAur | gnushark.py:2038-2064 | with no name to install in the repositories, an item with a Flatpak id installs it through Flatpak when available (declined without confirmation); otherwise everything goes to the AUR |
| Action.ClickFlatpakBeforeAur | gnushark.py:2015-2064 | the same for a whole click past the checks |
| Action.AurNeedsHelper | gnushark.py:2021-2026 | without a helper the install ends with the helper plan |
| Action.InstallWithStrict | gnushark.py:2027-2036 | a package-manager install runs as root and starts with strict mode |
| Action.InstallPipelineStrict | gnushark.py:2015-2064 | every root install of a click starts with strict mode |
| Action.PresentProgramOpens | gnushark.py:1960-1970 | an ungated item whose program is on `PATH` is offered to open, in a terminal for command-line programs |
| Action.DkmsDriverNeedsHeaders | gnushark.py:1882-1887 | as written, the `nvidia-dkms` driver without headers ends with the header check |
| Action.OpenDkmsPassesHeaderCheck | gnushark.py:1882-1887 | as written, the `nvidia-open-dkms` driver without headers does not stop at the header check; the corrected decision does |
| Action.DkmsDriverNeedsHeadersCorrected | gnushark.py:1882-1887 | corrected, every DKMS NVIDIA driver without headers ends with the header check |
| Packages.OpenDkmsListChecks | gnushark.py:1885 | the open DKMS package list fails the check as written and passes the corrected one |
| Policy.RootRunner.constructor | gnushark.py:1009-1010 | nothing installing and nothing launched at start |
| Policy.RootRunner.BootstrapRoot | gnushark.py:1349-1366 | corrected (see the gnushark.py:1395-1400 finding): the root primitive of the policy install never is the wrapper; as root it is the root primitive of a root pipeline, otherwise sudo; only the corrected members use it |
| Policy.RootRunner.EnsurePolicy | gnushark.py:1349-1368 | nothing is launched while an install is under way or both files are current; otherwise exactly one install pipeline is launched with the root primitive of a root pipeline, which under pkexec is the wrapper while the files are still not current; the flag is restored |
| Policy.RootRunner.OpenPipeline | gnushark.py:1379-1419 | a pkexec root pipeline is preceded by the policy install when needed; the pipeline is then launched with its mode's root primitive |
| Policy.RootRunner.EnsurePolicyCorrected | gnushark.py:1349-1368 | corrected: the same, with the install launched through sudo, so no policy install goes through the wrapper |
| Policy.RootRunner.OpenPipelineCorrected | gnushark.py:1379-1419 | the same over the corrected policy install; a log without installs through the wrapper stays so |
| Policy.RootRunner.PolicyInstalled | gnushark.py:1334-1347 | after the install script runs, both files are current |
| Policy.AsWrittenBootstrapsThroughWrapper | gnushark.py:1395-1400 | as written, the first pkexec pipeline of a fresh user session launches the policy install through the missing wrapper, then itself |
| Policy.CorrectedBootstrap | gnushark.py:1395-1400 | corrected, the same session installs the policy through sudo before the pkexec pipeline |
| Policy.InstalledPolicyIsKept | gnushark.py:1353-1363 | with the policy current, a pkexec pipeline launches only itself |

## Left out

- GTK windows, dialogs, translations, icons and the saved JSON state are not modelled. A confirmation is a boolean parameter.
- Threads, the completion-polling loop, the policy mutex and the asynchronous end of a pipeline are not modelled. The re-entrancy flag is modelled. `Policy.RootRunner.PolicyInstalled` stands for a policy install that ran to its end.
- Process spawning, the headless log file and the sentinel watch are not modelled. The model ends at the argv or the headless command chosen.
- The shell text embedded in the program is not modelled: the `expect` helper, the `run_root` definitions, the polkit XML and the wrapper. These are opaque strings.
- Terminal.ArgvRunsScript: the script's words are only modelled as the shell splits them in the subset covered by `ShellQuote.Lex`; the expansions that subset excludes are not modelled.
- The Wine GStreamer prompt appended to the install script (lines 1901-1934) is not modelled.
- The `[multilib]` check and its two dialogs (lines 1937-1954 and 1997-2013) are not modelled.
- The Flathub card and the `flathub` remote setup (`_ensure_flathub`) are not modelled.
- The per-item post-install steps (lines 2066-2072) are not modelled. These are service enabling, the CPU governor and the zram files.
- The NVIDIA initramfs and reboot offers after an install (lines 2074-2080) are not modelled. `Packages.DetectInitramfsTool` covers the tool choice only.
- Packages.MissingPackages: only the per-package `pacman -Q` fallback (lines 1271-1277) is modelled. It is taken as the meaning of the batched `pacman -T` query at lines 1262-1270, which is not modelled separately.
- Packages.SplitOfficialAur: `_which_in_official_repos` is modelled as membership in the repository set; the `pacman -Si` output parsing and its cache are not modelled.
- `_detect_cpu_count` is not modelled. The core count is a parameter of `Zram.ChooseZramParams`.
- Zram.SizeMib: `int(ram_mib * 0.75)` is written as `ramMib * 3 / 4`. The two agree for every non-negative RAM size up to 8192 MiB, because the product is exact in floating point.
- Action.HandleAction: the open dialogs end in `OfferOpen`/`OfferOpenFlatpak`. Starting the program afterwards is not modelled.
- Action.EnsureKernelHeaders: the header install is modelled as the `NeedHeaders` outcome, with the package to offer. Its confirmation and pipeline are not modelled.
- Text.ParseInt: only an optional sign followed by ASCII digits is accepted. Python's `int()` also accepts surrounding whitespace, underscores between digits and non-ASCII digits.
- Text.Lower: lower-cases ASCII letters only, where `str.lower` covers all of Unicode.

## Findings

| source | as written | input that shows it | evidently intended | confidence | as-written member | corrected member |
|---|---|---|---|---|---|---|
| gnushark.py:640-641 | `"ati" in out` matches the substring inside "compatible", so any VGA line reports an AMD GPU | lspci output `vga compatible controller: intel` (an Intel-only machine) gives ["amd", "intel"] | `ati` as a vendor word, so the Intel-only machine gives ["intel"] and the amd-mesa gate refuses | not executed | Detect.LspciIntelOnlyAsWritten | Detect.LspciIntelOnly |
| gnushark.py:1885 | only `nvidia-dkms` triggers the kernel-header check | `GNUSK_PREFER_NVIDIA_OPEN=1`, kernel `6.9.1-zen1-1-zen`, `nvidia-open-dkms` in the repositories: the DKMS open driver is chosen and the headers are not checked | every DKMS driver, `nvidia-open-dkms` included, requires the headers first | not executed | Action.OpenDkmsPassesHeaderCheck | Action.DkmsDriverNeedsHeadersCorrected |
| gnushark.py:1395-1400 | the policy install pipeline is opened with `need_root=True`, so under pkexec its `run_root_sh` is `pkexec /usr/libexec/gnushark-runroot`, the wrapper it is about to install | euid 1000, pkexec on `PATH`, wrapper absent: the first root pipeline starts the policy install through the missing wrapper | the install reaches root without the wrapper (sudo in the terminal), and the pkexec pipeline follows | not executed | Policy.AsWrittenBootstrapsThroughWrapper | Policy.CorrectedBootstrap |

The compositions follow the code as written. Each corrected composition has its own name:

- `Detect.DetectGpuVendorsCorrected` uses the corrected lspci probe `Detect.GpuVendorsFromLspci`.
- `Action.PrecheckCorrected` and `Action.DecideCorrected` use the corrected header check `Packages.NeedsHeaders`.
- `Policy.RootRunner.OpenPipelineCorrected` uses `Policy.RootRunner.EnsurePolicyCorrected`.
