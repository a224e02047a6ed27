/** The package-level decisions of the installer window:
    virtual-package resolution (`_resolve_virtual_pkgs`), what is missing
    (`_missing_packages`, `_any_installed`), the repository/AUR split
    (`_which_in_official_repos`, `_split_official_aur`), the AUR helper
    (`_ensure_aur_helper_auto`), the initramfs tool
    (`_detect_initramfs_tool`), kernel headers (`_kernel_variant`,
    `_header_pkg_candidates`, `_matching_header_pkg`, `_headers_installed`,
    `_ensure_kernel_headers`) and the NVIDIA package set (`_nvidia_packages`).
    `repo` is the set of names `pacman -Si` finds in the official
    repositories, `installed` the set `pacman -Q` reports installed and
    `onPath` the set of commands `shutil.which` finds. */
module Packages {
  import opened Wrappers
  import Text
  import Seqs
  import ShellQuote
  import Script

  // ---------------------------------------------------------------------------
  // Virtual packages (`_resolve_virtual_pkgs`)
  // ---------------------------------------------------------------------------

  /** `vkd3d-proton` stays when the official repositories carry it and
      becomes `vkd3d-proton-bin` otherwise (whether or not that one is
      found); every other name is kept. */
  function ResolvePkg(p: string, repo: set<string>): string {
    if p == "vkd3d-proton" then
      if "vkd3d-proton" in repo then "vkd3d-proton" else "vkd3d-proton-bin"
    else p
  }

  function Resolved(pkgs: seq<string>, repo: set<string>): (r: seq<string>)
    ensures |r| == |pkgs|
    ensures forall i :: 0 <= i < |pkgs| ==> r[i] == ResolvePkg(pkgs[i], repo)
  {
    seq(|pkgs|, i requires 0 <= i < |pkgs| => ResolvePkg(pkgs[i], repo))
  }

  /** `_resolve_virtual_pkgs` */
  method ResolveVirtualPkgs(pkgs: seq<string>, repo: set<string>) returns (resolved: seq<string>)
    ensures resolved == Resolved(pkgs, repo)
  {
    resolved := [];
    for i := 0 to |pkgs|
      invariant resolved == Resolved(pkgs[..i], repo)
    {
      var p := pkgs[i];
      if p == "vkd3d-proton" {
        if "vkd3d-proton" in repo {
          resolved := resolved + ["vkd3d-proton"];
        } else if "vkd3d-proton-bin" in repo {
          resolved := resolved + ["vkd3d-proton-bin"];
        } else {
          resolved := resolved + ["vkd3d-proton-bin"];
        }
      } else {
        resolved := resolved + [p];
      }
    }
    assert pkgs[..|pkgs|] == pkgs;
  }

  /** Resolution keeps the length and every other name, never asks for a
      `vkd3d-proton` the repositories do not carry, and resolving twice is
      resolving once. */
  lemma ResolvedFacts(pkgs: seq<string>, repo: set<string>)
    ensures forall i :: 0 <= i < |pkgs| && pkgs[i] != "vkd3d-proton" ==> Resolved(pkgs, repo)[i] == pkgs[i]
    ensures "vkd3d-proton" in Resolved(pkgs, repo) ==> "vkd3d-proton" in repo
    ensures Resolved(Resolved(pkgs, repo), repo) == Resolved(pkgs, repo)
  {
    var r := Resolved(pkgs, repo);
    if "vkd3d-proton" in r {
      var i :| 0 <= i < |r| && r[i] == "vkd3d-proton";
      assert ResolvePkg(pkgs[i], repo) == "vkd3d-proton";
    }
  }

  // ---------------------------------------------------------------------------
  // Missing packages (`_missing_packages`, `_any_installed`)
  // ---------------------------------------------------------------------------

  /** The non-empty names of `pkgs` that are not installed, in order. */
  function Missing(pkgs: seq<string>, installed: set<string>): seq<string>
    decreases |pkgs|
  {
    if pkgs == [] then []
    else
      var p := pkgs[|pkgs| - 1];
      Missing(pkgs[..|pkgs| - 1], installed) + (if p != [] && p !in installed then [p] else [])
  }

  /** `_missing_packages` on its per-package path: `pacman -Q` for each
      non-empty name. */
  method MissingPackages(pkgs: seq<string>, installed: set<string>) returns (missing: seq<string>)
    ensures missing == Missing(pkgs, installed)
  {
    missing := [];
    for i := 0 to |pkgs|
      invariant missing == Missing(pkgs[..i], installed)
    {
      assert pkgs[..i + 1][..i] == pkgs[..i];
      var p := pkgs[i];
      if p != [] && p !in installed {
        missing := missing + [p];
      }
    }
    assert pkgs[..|pkgs|] == pkgs;
  }

  /** A name is reported missing exactly when it is a non-empty listed name
      that is not installed. */
  lemma {:induction false} MissingMembership(pkgs: seq<string>, installed: set<string>, p: string)
    ensures p in Missing(pkgs, installed) <==> p in pkgs && p != [] && p !in installed
    decreases |pkgs|
  {
    if pkgs != [] {
      var init := pkgs[..|pkgs| - 1];
      MissingMembership(init, installed, p);
      assert pkgs == init + [pkgs[|pkgs| - 1]];
    }
  }

  function ToSet(s: seq<string>): set<string> {
    set x | x in s
  }

  /** `_any_installed`: the set of missing names is smaller than the set of
      non-empty names. */
  function AnyInstalled(pkgs: seq<string>, installed: set<string>): bool {
    var names := set p | p in pkgs && p != [];
    if names == {} then false
    else |ToSet(Missing(pkgs, installed))| < |names|
  }

  /** The count comparison means: some non-empty listed name is installed. */
  lemma AnyInstalledIff(pkgs: seq<string>, installed: set<string>)
    ensures AnyInstalled(pkgs, installed) <==> exists i :: 0 <= i < |pkgs| && pkgs[i] != [] && pkgs[i] in installed
  {
    var names := set p | p in pkgs && p != [];
    var missing := ToSet(Missing(pkgs, installed));
    forall x | x in missing ensures x in names && x !in installed {
      MissingMembership(pkgs, installed, x);
    }
    assert missing <= names;
    if i :| 0 <= i < |pkgs| && pkgs[i] != [] && pkgs[i] in installed {
      var x := pkgs[i];
      assert x in names && x !in missing;
      StrictSubsetSmaller(missing, names, x);
    } else {
      forall x | x in names ensures x in missing {
        MissingMembership(pkgs, installed, x);
      }
      assert missing == names;
    }
  }

  lemma StrictSubsetSmaller(a: set<string>, b: set<string>, x: string)
    requires a <= b && x in b && x !in a
    ensures |a| < |b|
  {
    assert a <= b - {x};
    SubsetNotLarger(a, b - {x});
  }

  lemma {:induction false} SubsetNotLarger(a: set<string>, b: set<string>)
    requires a <= b
    ensures |a| <= |b|
    decreases |b|
  {
    if a != {} {
      var x :| x in a;
      SubsetNotLarger(a - {x}, b - {x});
    }
  }

  // ---------------------------------------------------------------------------
  // Repository / AUR split (`_which_in_official_repos`, `_split_official_aur`)
  // ---------------------------------------------------------------------------

  /** `_which_in_official_repos`: the non-empty names the official
      repositories carry. */
  function WhichInOfficialRepos(pkgs: seq<string>, repo: set<string>): set<string> {
    set p | p in pkgs && p != [] && p in repo
  }

  /** The names of `pkgs` in `official`, in order, and the others, in order. */
  function Partition(pkgs: seq<string>, official: set<string>): (parts: (seq<string>, seq<string>))
    ensures |parts.0| + |parts.1| == |pkgs|
    decreases |pkgs|
  {
    if pkgs == [] then ([], [])
    else
      var (o, a) := Partition(pkgs[..|pkgs| - 1], official);
      var p := pkgs[|pkgs| - 1];
      if p in official then (o + [p], a) else (o, a + [p])
  }

  /** `_split_official_aur` */
  method SplitOfficialAur(pkgs: seq<string>, repo: set<string>) returns (official: seq<string>, aur: seq<string>)
    ensures (official, aur) == Partition(pkgs, WhichInOfficialRepos(pkgs, repo))
  {
    var officialSet := WhichInOfficialRepos(pkgs, repo);
    official, aur := [], [];
    for i := 0 to |pkgs|
      invariant (official, aur) == Partition(pkgs[..i], officialSet)
    {
      assert pkgs[..i + 1][..i] == pkgs[..i];
      var p := pkgs[i];
      if p in officialSet {
        official := official + [p];
      } else {
        aur := aur + [p];
      }
    }
    assert pkgs[..|pkgs|] == pkgs;
  }

  /** The split is a partition of the input: together the two lists hold
      every name exactly as often as the input does; the first holds only
      names the repositories carry, the second only names they do not. */
  lemma {:induction false} SplitFacts(pkgs: seq<string>, repo: set<string>)
    ensures var (o, a) := Partition(pkgs, WhichInOfficialRepos(pkgs, repo));
      && multiset(o) + multiset(a) == multiset(pkgs)
      && (forall i :: 0 <= i < |o| ==> o[i] in repo && o[i] != [])
      && (forall i :: 0 <= i < |a| ==> a[i] !in repo || a[i] == [])
  {
    var official := WhichInOfficialRepos(pkgs, repo);
    PartitionFacts(pkgs, official);
    var (o, a) := Partition(pkgs, official);
    forall i | 0 <= i < |o| ensures o[i] in repo && o[i] != [] {
      assert o[i] in official;
    }
    forall i | 0 <= i < |a| ensures a[i] !in repo || a[i] == [] {
      assert a[i] in multiset(pkgs) by {
        assert a[i] in multiset(a);
      }
      assert a[i] !in official;
    }
  }

  /** Nothing goes to the first list exactly when no name is in the set. */
  lemma {:induction false} PartitionFirstEmpty(pkgs: seq<string>, official: set<string>)
    ensures Partition(pkgs, official).0 == [] <==> forall i :: 0 <= i < |pkgs| ==> pkgs[i] !in official
    decreases |pkgs|
  {
    if pkgs != [] {
      var init := pkgs[..|pkgs| - 1];
      PartitionFirstEmpty(init, official);
      assert forall i :: 0 <= i < |init| ==> init[i] == pkgs[i];
    }
  }

  lemma {:induction false} PartitionFacts(pkgs: seq<string>, official: set<string>)
    ensures var (o, a) := Partition(pkgs, official);
      && multiset(o) + multiset(a) == multiset(pkgs)
      && (forall i :: 0 <= i < |o| ==> o[i] in official)
      && (forall i :: 0 <= i < |a| ==> a[i] !in official)
    decreases |pkgs|
  {
    if pkgs != [] {
      var init := pkgs[..|pkgs| - 1];
      PartitionFacts(init, official);
      assert pkgs == init + [pkgs[|pkgs| - 1]];
    }
  }

  // ---------------------------------------------------------------------------
  // Initramfs (`_detect_initramfs_tool`)
  // ---------------------------------------------------------------------------

  datatype InitramfsTool = InitramfsTool(name: string, regenerate: string)

  /** mkinitcpio when present, else dracut when present, else mkinitcpio. */
  function DetectInitramfsTool(onPath: set<string>): (t: InitramfsTool)
    ensures t.name == "dracut" <==> "mkinitcpio" !in onPath && "dracut" in onPath
    ensures t.name == "mkinitcpio" <==> !(t.name == "dracut")
    ensures t.name == "mkinitcpio" ==> t.regenerate == "mkinitcpio -P"
    ensures t.name == "dracut" ==> t.regenerate == "dracut -f --kver \"$(uname -r)\""
  {
    if "mkinitcpio" in onPath then InitramfsTool("mkinitcpio", "mkinitcpio -P")
    else if "dracut" in onPath then InitramfsTool("dracut", "dracut -f --kver \"$(uname -r)\"")
    else InitramfsTool("mkinitcpio", "mkinitcpio -P")
  }

  // ---------------------------------------------------------------------------
  // Kernel headers (`_kernel_variant`, `_header_pkg_candidates`,
  // `_matching_header_pkg`, `_headers_installed`)
  // ---------------------------------------------------------------------------

  /** `_kernel_variant`: `uname -r` stripped and lower-cased, or "" when the
      command fails (`None`). */
  function KernelVariant(uname: Option<string>): (v: string)
    ensures uname.None? ==> v == ""
    ensures uname.Some? ==> |v| <= |uname.value|
    ensures forall i :: 0 <= i < |v| ==> !('A' <= v[i] <= 'Z')
    ensures v == [] || (!Text.IsSpace(v[0]) && !Text.IsSpace(v[|v| - 1]))
    ensures uname.Some? && (forall i :: 0 <= i < |uname.value| ==> !Text.IsSpace(uname.value[i])) ==>
      |v| == |uname.value| && forall i :: 0 <= i < |v| ==> v[i] == Text.LowerChar(uname.value[i])
  {
    if uname.Some? then
      Text.LowerStrip(uname.value);
      Text.Lower(Text.Strip(uname.value))
    else ""
  }

  /** The header package of each kernel flavour tag found in the release
      string, in the order zen, lts, hardened, cachyos. */
  function FlavourHeaders(ver: string): seq<string> {
    (if Text.Contains(ver, "-zen") then ["linux-zen-headers"] else [])
    + (if Text.Contains(ver, "-lts") then ["linux-lts-headers"] else [])
    + (if Text.Contains(ver, "-hardened") then ["linux-hardened-headers"] else [])
    + (if Text.Contains(ver, "-cachyos") then ["linux-cachyos-headers"] else [])
  }

  /** The header package of one installed kernel package line. */
  function KernelHeaderEntry(line: string): seq<string> {
    var base := Text.Strip(line);
    if base != [] && Text.StartsWith(base, "linux") then [base + "-headers"] else []
  }

  /** `<kernel>-headers` for each installed kernel package line. */
  function KernelHeaderNames(lines: seq<string>): seq<string>
    decreases |lines|
  {
    if lines == [] then []
    else KernelHeaderNames(lines[..|lines| - 1]) + KernelHeaderEntry(lines[|lines| - 1])
  }

  /** One installed header package line, stripped, dropped when blank. */
  function HeaderPkgEntry(line: string): seq<string> {
    var pkg := Text.Strip(line);
    if pkg != [] then [pkg] else []
  }

  /** The installed header package lines, stripped, blank ones dropped. */
  function HeaderPkgNames(lines: seq<string>): seq<string>
    decreases |lines|
  {
    if lines == [] then []
    else HeaderPkgNames(lines[..|lines| - 1]) + HeaderPkgEntry(lines[|lines| - 1])
  }

  /** Every candidate before de-duplication: the flavour headers, the headers
      of the installed kernels (`kernels` is the output of the package query,
      `None` when it failed), `linux-headers`, the installed header packages. */
  function HeaderCandidateList(ver: string, kernels: Option<string>, headers: Option<string>): seq<string> {
    FlavourHeaders(ver)
    + (if kernels.Some? then KernelHeaderNames(Text.SplitLines(kernels.value)) else [])
    + ["linux-headers"]
    + (if headers.Some? then HeaderPkgNames(Text.SplitLines(headers.value)) else [])
  }

  /** The de-duplicated candidates. */
  function HeaderCandidates(ver: string, kernels: Option<string>, headers: Option<string>): seq<string> {
    Seqs.Dedup(HeaderCandidateList(ver, kernels, headers))
  }

  /** One more kernel line adds its own entry. */
  lemma KernelHeaderNamesStep(lines: seq<string>, i: nat)
    requires i < |lines|
    ensures KernelHeaderNames(lines[..i + 1]) == KernelHeaderNames(lines[..i]) + KernelHeaderEntry(lines[i])
  {
    assert lines[..i + 1][..i] == lines[..i];
  }

  /** One more header line adds its own entry. */
  lemma HeaderPkgNamesStep(lines: seq<string>, i: nat)
    requires i < |lines|
    ensures HeaderPkgNames(lines[..i + 1]) == HeaderPkgNames(lines[..i]) + HeaderPkgEntry(lines[i])
  {
    assert lines[..i + 1][..i] == lines[..i];
  }

  /** The loop over the installed kernel packages. */
  method KernelHeaderLines(lines: seq<string>) returns (names: seq<string>)
    ensures names == KernelHeaderNames(lines)
  {
    names := [];
    for i := 0 to |lines|
      invariant names == KernelHeaderNames(lines[..i])
    {
      KernelHeaderNamesStep(lines, i);
      var base := Text.Strip(lines[i]);
      if base != [] && Text.StartsWith(base, "linux") {
        names := names + [base + "-headers"];
      }
    }
    assert lines[..|lines|] == lines;
  }

  /** The loop over the installed header packages. */
  method HeaderPkgLines(lines: seq<string>) returns (names: seq<string>)
    ensures names == HeaderPkgNames(lines)
  {
    names := [];
    for i := 0 to |lines|
      invariant names == HeaderPkgNames(lines[..i])
    {
      HeaderPkgNamesStep(lines, i);
      var pkg := Text.Strip(lines[i]);
      if pkg != [] {
        names := names + [pkg];
      }
    }
    assert lines[..|lines|] == lines;
  }

  /** The four kernel flavour tests. */
  method FlavourCandidates(ver: string) returns (cands: seq<string>)
    ensures cands == FlavourHeaders(ver)
  {
    var zen := Text.Contains(ver, "-zen");
    var lts := Text.Contains(ver, "-lts");
    var hardened := Text.Contains(ver, "-hardened");
    var cachyos := Text.Contains(ver, "-cachyos");
    cands := [];
    if zen { cands := cands + ["linux-zen-headers"]; }
    ghost var c1 := cands;
    if lts { cands := cands + ["linux-lts-headers"]; }
    assert cands == c1 + (if lts then ["linux-lts-headers"] else []);
    ghost var c2 := cands;
    if hardened { cands := cands + ["linux-hardened-headers"]; }
    assert cands == c2 + (if hardened then ["linux-hardened-headers"] else []);
    ghost var c3 := cands;
    if cachyos { cands := cands + ["linux-cachyos-headers"]; }
    assert cands == c3 + (if cachyos then ["linux-cachyos-headers"] else []);
  }

  /** `_header_pkg_candidates` */
  method HeaderPkgCandidates(ver: string, kernels: Option<string>, headers: Option<string>)
    returns (ordered: seq<string>)
    ensures ordered == HeaderCandidates(ver, kernels, headers)
  {
    var flavour := FlavourCandidates(ver);
    var kernelPart := [];
    if kernels.Some? {
      kernelPart := KernelHeaderLines(Text.SplitLines(kernels.value));
    }
    var headerPart := [];
    if headers.Some? {
      headerPart := HeaderPkgLines(Text.SplitLines(headers.value));
    }
    var cands := flavour + kernelPart + ["linux-headers"] + headerPart;
    assert cands == HeaderCandidateList(ver, kernels, headers);
    ordered := Seqs.DedupInOrder(cands);
  }

  /** The candidates hold no repeats, lose no name, always include
      `linux-headers`, and on a zen kernel start with `linux-zen-headers`. */
  lemma HeaderCandidatesFacts(ver: string, kernels: Option<string>, headers: Option<string>)
    ensures var list := HeaderCandidateList(ver, kernels, headers);
      var cands := HeaderCandidates(ver, kernels, headers);
      && Seqs.Distinct(cands)
      && (forall i :: 0 <= i < |list| ==> list[i] in cands)
      && (forall i :: 0 <= i < |cands| ==> cands[i] in list)
      && "linux-headers" in cands
      && (Text.Contains(ver, "-zen") ==> cands != [] && cands[0] == "linux-zen-headers")
  {
    var list := HeaderCandidateList(ver, kernels, headers);
    var n := |FlavourHeaders(ver)| + |if kernels.Some? then KernelHeaderNames(Text.SplitLines(kernels.value)) else []|;
    assert list[n] == "linux-headers";
    if Text.Contains(ver, "-zen") {
      assert list[0] == "linux-zen-headers";
      Seqs.DedupHead(list);
    }
  }

  /** The flavour tags `_matching_header_pkg` looks for, each with the
      header package name it matches by prefix. */
  predicate FlavourMatch(ver: string, p: string) {
    || (Text.Contains(ver, "-zen") && Text.StartsWith(p, "linux-zen-headers"))
    || (Text.Contains(ver, "-lts") && Text.StartsWith(p, "linux-lts-headers"))
    || (Text.Contains(ver, "-hardened") && Text.StartsWith(p, "linux-hardened-headers"))
    || (Text.Contains(ver, "-cachyos") && Text.StartsWith(p, "linux-cachyos-headers"))
  }

  /** The first candidate that matches the running kernel's flavour. */
  function FirstFlavourMatch(ver: string, cands: seq<string>): (m: Option<string>)
    ensures m.Some? ==> m.value in cands && FlavourMatch(ver, m.value)
    ensures m.None? ==> forall i :: 0 <= i < |cands| ==> !FlavourMatch(ver, cands[i])
    ensures m.Some? ==> exists k ::
      && 0 <= k < |cands| && cands[k] == m.value
      && forall j :: 0 <= j < k ==> !FlavourMatch(ver, cands[j])
  {
    if cands == [] then None
    else if FlavourMatch(ver, cands[0]) then Some(cands[0])
    else FirstFlavourMatch(ver, cands[1..])
  }

  /** The first candidate the official repositories carry. */
  function FirstInRepo(cands: seq<string>, repo: set<string>): (m: Option<string>)
    ensures m.Some? ==> m.value in cands && m.value in repo
    ensures m.None? ==> forall i :: 0 <= i < |cands| ==> cands[i] !in repo
    ensures m.Some? ==> exists k ::
      && 0 <= k < |cands| && cands[k] == m.value
      && forall j :: 0 <= j < k ==> cands[j] !in repo
  {
    if cands == [] then None
    else if cands[0] in repo then Some(cands[0])
    else FirstInRepo(cands[1..], repo)
  }

  /** What `_matching_header_pkg` answers for the candidate list `cands`. */
  function MatchingHeader(ver: string, cands: seq<string>, repo: set<string>): Option<string> {
    var flavour := FirstFlavourMatch(ver, cands);
    if flavour.Some? then flavour else FirstInRepo(cands, repo)
  }

  /** `_matching_header_pkg`: a flavour match first, else the first candidate
      the repositories carry, else nothing. */
  method MatchingHeaderPkg(ver: string, kernels: Option<string>, headers: Option<string>, repo: set<string>)
    returns (m: Option<string>)
    ensures m == MatchingHeader(ver, HeaderCandidates(ver, kernels, headers), repo)
  {
    var cands := HeaderPkgCandidates(ver, kernels, headers);
    for i := 0 to |cands|
      invariant FirstFlavourMatch(ver, cands) == FirstFlavourMatch(ver, cands[i..])
    {
      assert cands[i..][1..] == cands[i + 1..];
      if FlavourMatch(ver, cands[i]) {
        return Some(cands[i]);
      }
    }
    assert cands[|cands|..] == [];
    for i := 0 to |cands|
      invariant FirstInRepo(cands, repo) == FirstInRepo(cands[i..], repo)
    {
      assert cands[i..][1..] == cands[i + 1..];
      if cands[i] in repo {
        return Some(cands[i]);
      }
    }
    assert cands[|cands|..] == [];
    return None;
  }

  /** The match is always one of the candidates, and a zen kernel is
      matched with `linux-zen-headers`. */
  lemma MatchingHeaderFacts(ver: string, kernels: Option<string>, headers: Option<string>, repo: set<string>)
    ensures var m := MatchingHeader(ver, HeaderCandidates(ver, kernels, headers), repo);
      && (m.Some? ==> m.value in HeaderCandidates(ver, kernels, headers))
      && (Text.Contains(ver, "-zen") ==> m == Some("linux-zen-headers"))
  {
    HeaderCandidatesFacts(ver, kernels, headers);
    var cands := HeaderCandidates(ver, kernels, headers);
    if Text.Contains(ver, "-zen") {
      assert FlavourMatch(ver, cands[0]);
    }
  }

  /** `_headers_installed`: the matched package is installed, or any
      candidate is. */
  function HeadersInstalled(ver: string, cands: seq<string>, repo: set<string>, installed: set<string>): bool {
    var exact := MatchingHeader(ver, cands, repo);
    (exact.Some? && exact.value != [] && exact.value in installed)
    || exists i :: 0 <= i < |cands| && cands[i] in installed
  }

  /** The separate check of the matched package adds nothing: headers count
      as installed exactly when some candidate is installed. */
  lemma HeadersInstalledIff(ver: string, cands: seq<string>, repo: set<string>, installed: set<string>)
    ensures HeadersInstalled(ver, cands, repo, installed) <==> exists i :: 0 <= i < |cands| && cands[i] in installed
  {
    var exact := MatchingHeader(ver, cands, repo);
    if exact.Some? && exact.value in installed {
      var i :| 0 <= i < |cands| && cands[i] == exact.value;
    }
  }

  /** What `_ensure_kernel_headers` finds: the headers are there, a package
      to install was found, or no candidate is available. */
  datatype HeadersCheck = HeadersPresent | InstallHeaders(pkg: string) | NoHeaderCandidate

  function EnsureKernelHeaders(ver: string, cands: seq<string>, repo: set<string>, installed: set<string>): (c: HeadersCheck)
    ensures c.InstallHeaders? ==> c.pkg in cands && !HeadersInstalled(ver, cands, repo, installed)
    ensures c.HeadersPresent? <==> HeadersInstalled(ver, cands, repo, installed)
    ensures c.InstallHeaders? ==> MatchingHeader(ver, cands, repo) == Some(c.pkg) && c.pkg != []
    ensures c.NoHeaderCandidate? <==>
      !HeadersInstalled(ver, cands, repo, installed)
      && (MatchingHeader(ver, cands, repo).None? || MatchingHeader(ver, cands, repo).value == [])
  {
    if HeadersInstalled(ver, cands, repo, installed) then HeadersPresent
    else
      var cand := MatchingHeader(ver, cands, repo);
      if cand.None? || cand.value == [] then NoHeaderCandidate
      else InstallHeaders(cand.value)
  }

  /** The script that installs a header (or helper) package from the
      official repositories through the root primitive. */
  function PacmanInstallScript(pkg: string): string {
    Script.ExpectRunRoot("pacman -S --needed " + ShellQuote.Quote(pkg))
  }

  // ---------------------------------------------------------------------------
  // NVIDIA (`_nvidia_packages`)
  // ---------------------------------------------------------------------------

  const NvidiaBase: seq<string> := ["nvidia-utils", "lib32-nvidia-utils", "vulkan-icd-loader", "lib32-vulkan-icd-loader"]

  /** `GNUSK_PREFER_NVIDIA_OPEN` (`None` when unset), lower-cased, is one
      of 1, true, yes, on. */
  predicate PreferOpen(env: Option<string>) {
    var v := Text.Lower(if env.Some? then env.value else "");
    v == "1" || v == "true" || v == "yes" || v == "on"
  }

  /** A kernel flavour whose modules have to be built by DKMS. */
  predicate DkmsKernel(ver: string) {
    Text.Contains(ver, "-lts") || Text.Contains(ver, "-zen")
    || Text.Contains(ver, "-cachyos") || Text.Contains(ver, "-hardened")
  }

  /** The open driver variants in the order they are tried. */
  function OpenCandidates(ver: string): seq<string> {
    if DkmsKernel(ver) then ["nvidia-open-dkms", "nvidia-open"] else ["nvidia-open", "nvidia-open-dkms"]
  }

  /** The proprietary driver for the running kernel. */
  function ClosedDriver(ver: string): string {
    if Text.Contains(ver, "-lts") then "nvidia-lts"
    else if Text.Contains(ver, "-zen") || Text.Contains(ver, "-cachyos") || Text.Contains(ver, "-hardened") then "nvidia-dkms"
    else "nvidia"
  }

  /** The driver package `_nvidia_packages` puts in front of the base set. */
  function NvidiaDriver(ver: string, preferOpen: bool, repo: set<string>): string {
    var open := OpenCandidates(ver);
    if preferOpen && open[0] in repo then open[0]
    else if preferOpen && open[1] in repo then open[1]
    else ClosedDriver(ver)
  }

  /** `_nvidia_packages`: `ver` is the kernel variant and `env` the value of
      `GNUSK_PREFER_NVIDIA_OPEN`. */
  method NvidiaPackages(ver: string, env: Option<string>, repo: set<string>) returns (pkgs: seq<string>)
    ensures pkgs == [NvidiaDriver(ver, PreferOpen(env), repo)] + NvidiaBase
  {
    pkgs := NvidiaBase;
    if PreferOpen(env) {
      var openCandidates := OpenCandidates(ver);
      for i := 0 to |openCandidates|
        invariant forall j :: 0 <= j < i ==> openCandidates[j] !in repo
      {
        if openCandidates[i] in repo {
          pkgs := [openCandidates[i]] + pkgs;
          return;
        }
      }
    }
    if Text.Contains(ver, "-lts") {
      pkgs := ["nvidia-lts"] + pkgs;
    } else if Text.Contains(ver, "-zen") || Text.Contains(ver, "-cachyos") || Text.Contains(ver, "-hardened") {
      pkgs := ["nvidia-dkms"] + pkgs;
    } else {
      pkgs := ["nvidia"] + pkgs;
    }
  }

  /** Five packages, the driver first; the open driver only on request and
      only when the repositories carry it, preferring the DKMS build on
      flavoured kernels; otherwise the proprietary driver for the kernel. */
  lemma NvidiaDriverRules(ver: string, preferOpen: bool, repo: set<string>)
    ensures var d := NvidiaDriver(ver, preferOpen, repo);
      && (!preferOpen ==> d == ClosedDriver(ver))
      && (preferOpen && DkmsKernel(ver) && "nvidia-open-dkms" in repo ==> d == "nvidia-open-dkms")
      && (preferOpen && !DkmsKernel(ver) && "nvidia-open" in repo ==> d == "nvidia-open")
      && (preferOpen && "nvidia-open" !in repo && "nvidia-open-dkms" !in repo ==> d == ClosedDriver(ver))
      && (d in repo || d == ClosedDriver(ver))
    ensures ClosedDriver(ver) == "nvidia-lts" <==> Text.Contains(ver, "-lts")
    ensures ClosedDriver(ver) == "nvidia-dkms" <==> !Text.Contains(ver, "-lts") && DkmsKernel(ver)
  {
  }

  /** A package built by DKMS: its name ends in `-dkms`. */
  predicate IsDkms(p: string) {
    |p| >= 5 && p[|p| - 5..] == "-dkms"
  }

  /** The header check in `handle_action` as written: only `nvidia-dkms`
      triggers it. */
  predicate NeedsHeadersAsWritten(pkgs: seq<string>) {
    "nvidia-dkms" in pkgs
  }

  /** The header check as the dialog text describes it: any DKMS driver. */
  predicate NeedsHeaders(pkgs: seq<string>) {
    exists i :: 0 <= i < |pkgs| && IsDkms(pkgs[i])
  }

  /** With the open driver requested on a flavoured kernel, the DKMS build
      `nvidia-open-dkms` is chosen and the check as written lets it through
      without making sure the kernel headers are installed. */
  lemma OpenDkmsSkipsHeaderCheck(ver: string, repo: set<string>)
    requires DkmsKernel(ver) && "nvidia-open-dkms" in repo
    ensures var pkgs := [NvidiaDriver(ver, true, repo)] + NvidiaBase;
      && pkgs[0] == "nvidia-open-dkms" && IsDkms(pkgs[0])
      && !NeedsHeadersAsWritten(pkgs)
  {
    var pkgs := [NvidiaDriver(ver, true, repo)] + NvidiaBase;
    var d: string := "nvidia-open-dkms";
    assert d[|d| - 5..] == "-dkms";
    assert pkgs == [d, "nvidia-utils", "lib32-nvidia-utils", "vulkan-icd-loader", "lib32-vulkan-icd-loader"];
  }

  /** The package list of the open DKMS driver fails the check as written
      and passes the corrected one. */
  lemma OpenDkmsListChecks()
    ensures !NeedsHeadersAsWritten(["nvidia-open-dkms"] + NvidiaBase)
    ensures NeedsHeaders(["nvidia-open-dkms"] + NvidiaBase)
  {
    var d: string := "nvidia-open-dkms";
    var pkgs := [d] + NvidiaBase;
    assert pkgs == [d, "nvidia-utils", "lib32-nvidia-utils", "vulkan-icd-loader", "lib32-vulkan-icd-loader"];
    assert d[|d| - 5..] == "-dkms";
    assert IsDkms(pkgs[0]);
  }

  /** The corrected check fires exactly when the chosen driver is a DKMS
      build: on every flavoured kernel unless the plain open driver was
      found, and never on a stock kernel. */
  lemma NeedsHeadersIffDkmsDriver(ver: string, preferOpen: bool, repo: set<string>)
    ensures var d := NvidiaDriver(ver, preferOpen, repo);
      && (NeedsHeaders([d] + NvidiaBase) <==> IsDkms(d))
      && (IsDkms(d) <==> d == "nvidia-dkms" || d == "nvidia-open-dkms")
      && (IsDkms(d) ==> DkmsKernel(ver) || d == "nvidia-open-dkms")
  {
    var d := NvidiaDriver(ver, preferOpen, repo);
    var pkgs := [d] + NvidiaBase;
    assert pkgs[0] == d;
    BaseNotDkms();
    forall i | 1 <= i < |pkgs| ensures !IsDkms(pkgs[i]) {
      assert pkgs[i] == NvidiaBase[i - 1];
    }
    DriverNames(d, ver, preferOpen, repo);
  }

  lemma BaseNotDkms()
    ensures forall i :: 0 <= i < |NvidiaBase| ==> !IsDkms(NvidiaBase[i])
  {
    var a: string := "nvidia-utils";
    var b: string := "lib32-nvidia-utils";
    var c: string := "vulkan-icd-loader";
    var e: string := "lib32-vulkan-icd-loader";
    assert a[|a| - 1] == 's' && b[|b| - 1] == 's' && c[|c| - 1] == 'r' && e[|e| - 1] == 'r';
  }

  lemma DriverNames(d: string, ver: string, preferOpen: bool, repo: set<string>)
    requires d == NvidiaDriver(ver, preferOpen, repo)
    ensures d in ["nvidia-open-dkms", "nvidia-open", "nvidia-lts", "nvidia-dkms", "nvidia"]
    ensures IsDkms(d) <==> d == "nvidia-dkms" || d == "nvidia-open-dkms"
    ensures d == "nvidia-dkms" ==> DkmsKernel(ver)
  {
    var n1: string := "nvidia-open-dkms";
    var n2: string := "nvidia-open";
    var n3: string := "nvidia-lts";
    var n4: string := "nvidia-dkms";
    var n5: string := "nvidia";
    assert n1[|n1| - 5..] == "-dkms";
    assert n4[|n4| - 5..] == "-dkms";
    assert n2[|n2| - 1] == 'n' && n3[|n3| - 1] == 's' && n5[|n5| - 1] == 'a';
  }

  // ---------------------------------------------------------------------------
  // AUR helper (`_ensure_aur_helper_auto`)
  // ---------------------------------------------------------------------------

  /** The script that builds an AUR helper through pamac. */
  function PamacBuildScript(pkg: string): string {
    Script.ExpectRunRoot("pamac build --no-confirm " + ShellQuote.Quote(pkg))
  }

  /** A helper already on `PATH`, a root pipeline launched to install one
      (the user is told to come back when it finishes), or nothing. */
  datatype HelperPlan = HelperFound(name: string) | HelperLaunched(script: string) | HelperUnavailable

  const AurHelpers: seq<string> := ["paru", "yay"]

  function AurHelperPlan(onPath: set<string>, repo: set<string>): HelperPlan {
    if "paru" in onPath then HelperFound("paru")
    else if "yay" in onPath then HelperFound("yay")
    else if "paru" in repo then HelperLaunched(PacmanInstallScript("paru"))
    else if "yay" in repo then HelperLaunched(PacmanInstallScript("yay"))
    else if "pamac" in onPath then HelperLaunched(PamacBuildScript("paru"))
    else HelperUnavailable
  }

  /** `_ensure_aur_helper_auto` */
  method EnsureAurHelperAuto(onPath: set<string>, repo: set<string>) returns (plan: HelperPlan)
    ensures plan == AurHelperPlan(onPath, repo)
  {
    assert AurHelpers[0] == "paru" && AurHelpers[1] == "yay";
    for i := 0 to |AurHelpers|
      invariant forall j :: 0 <= j < i ==> AurHelpers[j] !in onPath
    {
      if AurHelpers[i] in onPath {
        return HelperFound(AurHelpers[i]);
      }
    }
    for i := 0 to |AurHelpers|
      invariant forall j :: 0 <= j < i ==> AurHelpers[j] !in repo
    {
      if AurHelpers[i] in repo {
        return HelperLaunched(PacmanInstallScript(AurHelpers[i]));
      }
    }
    if "pamac" in onPath {
      return HelperLaunched(PamacBuildScript("paru"));
    }
    return HelperUnavailable;
  }

  /** A helper is returned exactly when paru or yay is already on `PATH`
      (paru preferred); an install is launched only when none is, paru
      first; nothing is available only when neither helper is on `PATH`
      or in the repositories and pamac is absent. */
  lemma AurHelperPlanFacts(onPath: set<string>, repo: set<string>)
    ensures var plan := AurHelperPlan(onPath, repo);
      && (plan.HelperFound? <==> "paru" in onPath || "yay" in onPath)
      && (plan.HelperFound? ==> plan.name in AurHelpers && plan.name in onPath)
      && (plan.HelperFound? && "paru" in onPath ==> plan.name == "paru")
      && (plan == HelperLaunched(PacmanInstallScript("paru")) <==> "paru" !in onPath && "yay" !in onPath && "paru" in repo)
      && (plan.HelperUnavailable? <==>
            "paru" !in onPath && "yay" !in onPath && "paru" !in repo && "yay" !in repo && "pamac" !in onPath)
  {
    ScriptsDiffer();
  }

  /** The three install scripts are different strings. */
  lemma ScriptsDiffer()
    ensures PacmanInstallScript("paru") != PacmanInstallScript("yay")
    ensures PacmanInstallScript("paru") != PamacBuildScript("paru")
  {
    var pre: string := "expect_yes_pac \"run_root \\\"";
    assert ShellQuote.Quote("paru") == "paru" && ShellQuote.Quote("yay") == "yay";
    var a := PacmanInstallScript("paru");
    var b := PacmanInstallScript("yay");
    var c := PamacBuildScript("paru");
    assert |a| != |b|;
    assert a[|pre| + 2] == 'c' && c[|pre| + 2] == 'm';
  }
}
