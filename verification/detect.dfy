/** The hardware probes (`detect_distro`, `pick_pkg_manager`,
    `detect_cpu_vendor`, `detect_gpu_vendors` and its helpers): which distribution this is,
    which package manager is available, the CPU vendor and the GPU vendors.
    Every probe (a file read, a command's output, a PATH lookup) is a
    parameter; a read that raises is `None`. */
module Detect {
  import opened Wrappers
  import Text
  import Seqs

  // ---------------------------------------------------------------------------
  // Distribution (`detect_distro`)
  // ---------------------------------------------------------------------------

  /** The distribution id and its display name. */
  datatype Distro = Distro(id: string, name: string)

  /** The value `dict(...)` built from /etc/os-release holds for `key`: the
      value of the LAST line holding `=` whose stripped left side is `key`,
      stripped of whitespace and then of surrounding double quotes. */
  function OsReleaseValue(lines: seq<string>, key: string): Option<string>
    decreases |lines|
  {
    if lines == [] then None
    else
      var line := lines[|lines| - 1];
      if '=' in line && Text.Strip(Text.SplitFirst(line, '=').0) == key then
        Some(Text.StripChar(Text.Strip(Text.SplitFirst(line, '=').1), '"'))
      else OsReleaseValue(lines[..|lines| - 1], key)
  }

  /** `kv.get(key, default)` */
  function Get(lines: seq<string>, key: string, default: string): string {
    match OsReleaseValue(lines, key)
    case Some(v) => v
    case None => default
  }

  /** The classification `detect_distro` makes from the lower-cased `ID`,
      the lower-cased `ID_LIKE` and the display name. */
  function Classify(distroId: string, idLike: string, pretty: string): (d: Distro)
    ensures d.id in ["cachyos", "biglinux", "manjaro", "arch", "unknown"]
    ensures d.name != []
    ensures pretty != [] ==> d.name == pretty
  {
    if Text.Contains(distroId, "cachyos") || Text.Contains(idLike, "cachyos") then
      Distro("cachyos", if pretty != [] then pretty else "CachyOS")
    else if Text.Contains(distroId, "biglinux") || Text.Contains(idLike, "biglinux") then
      Distro("biglinux", if pretty != [] then pretty else "BigLinux")
    else if Text.Contains(distroId, "manjaro") || Text.Contains(idLike, "manjaro") then
      Distro("manjaro", if pretty != [] then pretty else "Manjaro")
    else if distroId == "arch" || Text.Contains(idLike, "arch") then
      Distro("arch", if pretty != [] then pretty else "Arch Linux")
    else
      Distro("unknown", if pretty != [] then pretty else "Linux")
  }

  /** `detect_distro`: `osRelease` is the text of /etc/os-release, `None`
      when reading it raises (then every field is empty). `PRETTY_NAME`
      is used when present, even when empty; `NAME` only when it is absent. */
  function DetectDistro(osRelease: Option<string>): (d: Distro)
    ensures osRelease.None? ==> d == Distro("unknown", "Linux")
  {
    match osRelease
    case None => Classify([], [], [])
    case Some(text) =>
      var lines := Text.SplitLines(text);
      Classify(Text.Lower(Get(lines, "ID", "")), Text.Lower(Get(lines, "ID_LIKE", "")),
               Get(lines, "PRETTY_NAME", Get(lines, "NAME", "")))
  }

  /** A derivative is recognised through `ID_LIKE` too, and CachyOS is
      preferred over every other family; a plain Arch `ID` or an `ID_LIKE`
      mentioning arch is "arch" only when no derivative matched. */
  lemma ClassifyPriority(distroId: string, idLike: string, pretty: string)
    ensures Text.Contains(distroId, "cachyos") || Text.Contains(idLike, "cachyos") ==>
      Classify(distroId, idLike, pretty).id == "cachyos"
    ensures Classify(distroId, idLike, pretty).id == "biglinux" <==>
      (!Text.Contains(distroId, "cachyos") && !Text.Contains(idLike, "cachyos")
       && (Text.Contains(distroId, "biglinux") || Text.Contains(idLike, "biglinux")))
    ensures Classify(distroId, idLike, pretty).id == "manjaro" <==>
      (!Text.Contains(distroId, "cachyos") && !Text.Contains(idLike, "cachyos")
       && !Text.Contains(distroId, "biglinux") && !Text.Contains(idLike, "biglinux")
       && (Text.Contains(distroId, "manjaro") || Text.Contains(idLike, "manjaro")))
    ensures Classify(distroId, idLike, pretty).id == "arch" <==>
      (!Text.Contains(distroId, "cachyos") && !Text.Contains(idLike, "cachyos")
       && !Text.Contains(distroId, "biglinux") && !Text.Contains(idLike, "biglinux")
       && !Text.Contains(distroId, "manjaro") && !Text.Contains(idLike, "manjaro")
       && (distroId == "arch" || Text.Contains(idLike, "arch")))
    ensures Classify(distroId, idLike, pretty).id == "unknown" <==>
      (!Text.Contains(distroId, "cachyos") && !Text.Contains(idLike, "cachyos")
       && !Text.Contains(distroId, "biglinux") && !Text.Contains(idLike, "biglinux")
       && !Text.Contains(distroId, "manjaro") && !Text.Contains(idLike, "manjaro")
       && distroId != "arch" && !Text.Contains(idLike, "arch"))
  {
  }

  /** A `KEY=value` line appended to the file decides `KEY`, whatever the
      earlier lines said. */
  lemma {:induction false} OsReleaseLastWins(lines: seq<string>, key: string, value: string)
    requires '=' !in key && Text.Strip(key) == key
    ensures OsReleaseValue(lines + [key + "=" + value], key)
         == Some(Text.StripChar(Text.Strip(value), '"'))
  {
    var line := key + "=" + value;
    var all := lines + [line];
    assert all[|all| - 1] == line;
    assert line[|key|] == '=';
    SplitAtFirst(key, value);
  }

  lemma {:induction false} SplitAtFirst(key: string, value: string)
    requires '=' !in key
    ensures '=' in key + "=" + value
    ensures Text.SplitFirst(key + "=" + value, '=') == (key, value)
    decreases |key|
  {
    var line := key + "=" + value;
    assert line[|key|] == '=';
    if key == [] {
      assert line == "=" + value && line[1..] == value;
    } else {
      assert line[0] == key[0] && line[1..] == key[1..] + "=" + value;
      SplitAtFirst(key[1..], value);
      assert [key[0]] + key[1..] == key;
    }
  }

  /** Lines without `=` are skipped. */
  lemma OsReleaseSkipsPlainLines(lines: seq<string>, line: string, key: string)
    requires '=' !in line
    ensures OsReleaseValue(lines + [line], key) == OsReleaseValue(lines, key)
  {
    var all := lines + [line];
    assert all[..|all| - 1] == lines;
  }

  // ---------------------------------------------------------------------------
  // Package manager (`pick_pkg_manager`)
  // ---------------------------------------------------------------------------

  const PkgManagers: seq<string> := ["pamac", "pacman", "paru", "yay"]

  /** The first of pamac, pacman, paru and yay found on PATH. */
  function PickPkgManager(onPath: set<string>): (m: Option<string>)
    ensures m.Some? ==> m.value in PkgManagers && m.value in onPath
  {
    if "pamac" in onPath then Some("pamac")
    else if "pacman" in onPath then Some("pacman")
    else if "paru" in onPath then Some("paru")
    else if "yay" in onPath then Some("yay")
    else None
  }

  /** `None` exactly when none of the four is installed, and a manager is
      chosen only when every manager before it in the list is missing. */
  lemma PickPkgManagerFirst(onPath: set<string>)
    ensures PickPkgManager(onPath).None? <==> forall k :: 0 <= k < |PkgManagers| ==> PkgManagers[k] !in onPath
    ensures forall j :: 0 <= j < |PkgManagers| && PickPkgManager(onPath) == Some(PkgManagers[j]) ==>
              forall k :: 0 <= k < j ==> PkgManagers[k] !in onPath
  {
  }

  // ---------------------------------------------------------------------------
  // CPU (`detect_cpu_vendor`)
  // ---------------------------------------------------------------------------

  /** The lower-cased text the CPU vendor is read from: /proc/cpuinfo
      (`None` when absent or unreadable) unless it is missing or empty, then
      the output of `lscpu` (empty when the command fails). */
  function CpuText(cpuinfo: Option<string>, lscpu: string): string {
    Text.Lower(if cpuinfo.Some? && cpuinfo.value != [] then cpuinfo.value else lscpu)
  }

  /** `detect_cpu_vendor` */
  function CpuVendor(cpuinfo: Option<string>, lscpu: string): (v: string)
    ensures v in ["intel", "amd", ""]
  {
    var low := CpuText(cpuinfo, lscpu);
    if Text.Contains(low, "genuineintel") || Text.Contains(low, "intel") then "intel"
    else if Text.Contains(low, "authenticamd") || Text.Contains(low, "amd") then "amd"
    else ""
  }

  /** A text that holds `sub` at some position also holds every piece of it. */
  lemma ContainsInner(s: string, sub: string, i: nat, j: nat)
    requires Text.Contains(s, sub) && i <= j <= |sub|
    ensures Text.Contains(s, sub[i..j])
  {
    var k :| 0 <= k <= |s| - |sub| && sub <= s[k..];
    assert s[k + i..k + i + (j - i)] == sub[i..j];
    Text.ContainsAt(s, sub[i..j], k + i);
  }

  lemma VendorWords(low: string)
    ensures Text.Contains(low, "genuineintel") ==> Text.Contains(low, "intel")
    ensures Text.Contains(low, "authenticamd") ==> Text.Contains(low, "amd")
  {
    var gi: string := "genuineintel";
    var am: string := "authenticamd";
    if Text.Contains(low, gi) {
      ContainsInner(low, gi, 7, 12);
      assert gi[7..12] == "intel";
    }
    if Text.Contains(low, am) {
      ContainsInner(low, am, 9, 12);
      assert am[9..12] == "amd";
    }
  }

  /** The vendor strings are searched as substrings: `intel` decides (the
      `genuineintel` test adds nothing), then `amd`; the first readable
      non-empty source wins. */
  lemma CpuVendorCharacterised(cpuinfo: Option<string>, lscpu: string)
    ensures CpuVendor(cpuinfo, lscpu) == "intel" <==> Text.Contains(CpuText(cpuinfo, lscpu), "intel")
    ensures CpuVendor(cpuinfo, lscpu) == "amd" <==>
      !Text.Contains(CpuText(cpuinfo, lscpu), "intel") && Text.Contains(CpuText(cpuinfo, lscpu), "amd")
  {
    VendorWords(CpuText(cpuinfo, lscpu));
  }

  // ---------------------------------------------------------------------------
  // GPU (`_gpu_vendors_from_lspci`, `_gpu_vendors_from_sysfs`,
  // `_gpu_modules_present`, `detect_gpu_vendors`)
  // ---------------------------------------------------------------------------

  /** Known GPU vendors, in the order every probe reports them. */
  predicate IsGpuVendor(v: string) {
    v == "nvidia" || v == "amd" || v == "intel"
  }

  /** The vendor list every GPU probe builds: nvidia, amd, intel, each when
      its test holds. */
  function GpuList(nvidia: bool, amd: bool, intel: bool): (vs: seq<string>)
    ensures Seqs.Distinct(vs)
    ensures forall k :: 0 <= k < |vs| ==> IsGpuVendor(vs[k])
    ensures ("nvidia" in vs <==> nvidia) && ("amd" in vs <==> amd) && ("intel" in vs <==> intel)
  {
    (if nvidia then ["nvidia"] else []) + (if amd then ["amd"] else []) + (if intel then ["intel"] else [])
  }

  /** The lspci probe as written: `ati` is searched as a bare substring of
      the lower-cased output, so the word "compatible" of every
      "VGA compatible controller" line counts as an AMD/ATI card. */
  function GpuVendorsFromLspciAsWritten(out: string): (vs: seq<string>)
    ensures Seqs.Distinct(vs)
    ensures forall k :: 0 <= k < |vs| ==> IsGpuVendor(vs[k])
    ensures var low := Text.Lower(out);
      && ("nvidia" in vs <==> Text.Contains(low, "nvidia"))
      && ("amd" in vs <==> Text.Contains(low, "amd") || Text.Contains(low, "ati"))
      && ("intel" in vs <==> Text.Contains(low, "intel"))
  {
    var low := Text.Lower(out);
    GpuList(Text.Contains(low, "nvidia"), Text.Contains(low, "amd") || Text.Contains(low, "ati"),
            Text.Contains(low, "intel"))
  }

  /** Any output holding a "VGA compatible controller" line reports AMD. */
  lemma LspciAtiMatchesCompatible(out: string)
    requires Text.Contains(Text.Lower(out), "compatible")
    ensures "amd" in GpuVendorsFromLspciAsWritten(out)
  {
    var c: string := "compatible";
    ContainsInner(Text.Lower(out), c, 4, 7);
    assert c[4..7] == "ati";
  }

  /** A witness: a machine with only an Intel GPU is reported as having an
      AMD one too. */
  lemma LspciIntelOnlyAsWritten()
    ensures GpuVendorsFromLspciAsWritten(IntelOnlyLspci) == ["amd", "intel"]
  {
    SampleFacts();
    LspciAtiMatchesCompatible(IntelOnlyLspci);
  }

  /** The head of a typical `lspci -nnk` entry for an Intel GPU, lower-cased. */
  const IntelOnlyLspci: string := "vga " + "compatible" + " controller: " + "intel"

  lemma SampleFacts()
    ensures Text.Lower(IntelOnlyLspci) == IntelOnlyLspci
    ensures Text.Contains(IntelOnlyLspci, "compatible")
    ensures Text.Contains(IntelOnlyLspci, "intel")
    ensures !Text.Contains(IntelOnlyLspci, "nvidia")
    ensures !Text.Contains(IntelOnlyLspci, "amd")
  {
    var s := IntelOnlyLspci;
    assert forall i :: 0 <= i < |s| ==> !('A' <= s[i] <= 'Z');
    var a: string := "vga ";
    var b: string := "compatible";
    var c: string := " controller: " + "intel";
    assert s == a + (b + c);
    assert s[|a|..] == b + c;
    assert b <= s[|a|..];
    var d: string := "vga " + "compatible" + " controller: ";
    var e: string := "intel";
    assert s == d + e;
    assert s[|d|..] == e;
    assert forall i :: 0 <= i < |s| ==> s[i] != 'd';
    NoCharNoContains(s, "nvidia", 3);
    NoCharNoContains(s, "amd", 2);
  }

  /** A text that lacks some character of `sub` does not contain `sub`. */
  lemma NoCharNoContains(s: string, sub: string, k: nat)
    requires k < |sub| && forall i :: 0 <= i < |s| ==> s[i] != sub[k]
    ensures !Text.Contains(s, sub)
  {
    forall i | 0 <= i <= |s| - |sub|
      ensures !(sub <= s[i..])
    {
      assert s[i..][k] == s[i + k];
    }
  }

  /** `ati` as a word of its own: not preceded or followed by a letter or a
      digit (as in "[AMD/ATI]" or "ATI Technologies"). */
  predicate HasWordAt(s: string, w: string, i: int) {
    && 0 <= i && i + |w| <= |s| && s[i..i + |w|] == w
    && (i == 0 || !IsAlnum(s[i - 1]))
    && (i + |w| == |s| || !IsAlnum(s[i + |w|]))
  }

  predicate HasWord(s: string, w: string) {
    exists i :: 0 <= i <= |s| - |w| && HasWordAt(s, w, i)
  }

  predicate IsAlnum(c: char) {
    ('a' <= c <= 'z') || ('A' <= c <= 'Z') || ('0' <= c <= '9')
  }

  /** The lspci probe with `ati` matched as a word, as the vendor check
      evidently means: `nvidia`, then `amd`, then `intel`, each at most once. */
  function GpuVendorsFromLspci(out: string): (vs: seq<string>)
    ensures Seqs.Distinct(vs)
    ensures forall k :: 0 <= k < |vs| ==> IsGpuVendor(vs[k])
    ensures var low := Text.Lower(out);
      && ("nvidia" in vs <==> Text.Contains(low, "nvidia"))
      && ("amd" in vs <==> Text.Contains(low, "amd") || HasWord(low, "ati"))
      && ("intel" in vs <==> Text.Contains(low, "intel"))
  {
    var low := Text.Lower(out);
    GpuList(Text.Contains(low, "nvidia"), Text.Contains(low, "amd") || HasWord(low, "ati"),
            Text.Contains(low, "intel"))
  }

  /** The corrected probe reports only Intel for the same output. */
  lemma LspciIntelOnly()
    ensures GpuVendorsFromLspci(IntelOnlyLspci) == ["intel"]
  {
    SampleFacts();
    var s := IntelOnlyLspci;
    forall i | 0 <= i <= |s| - 3 ensures !HasWordAt(s, "ati", i) {
      if s[i..i + 3] == "ati" {
        AtiOnlyInsideCompatible(i);
      }
    }
  }

  lemma AtiOnlyInsideCompatible(i: int)
    requires 0 <= i <= |IntelOnlyLspci| - 3 && IntelOnlyLspci[i..i + 3] == "ati"
    ensures i == 8 && IsAlnum(IntelOnlyLspci[i - 1])
  {
    var s := IntelOnlyLspci;
    assert s[i] == 'a' && s[i + 1] == 't';
  }

  /** The vendor a PCI vendor id names: 10de, 1002 and 8086, with or without
      a `0x` prefix, any case, surrounding whitespace ignored. */
  function VendorOfPciId(text: string): (v: Option<string>)
    ensures v.Some? ==> IsGpuVendor(v.value)
    ensures v == Some("nvidia") <==> NamesId(text, "10de")
    ensures v == Some("amd") <==> NamesId(text, "1002")
    ensures v == Some("intel") <==> NamesId(text, "8086")
  {
    var low := Text.Lower(Text.Strip(text));
    var vid := if Text.StartsWith(low, "0x") then low[2..] else low;
    HexIdForms(low, vid, "10de");
    HexIdForms(low, vid, "1002");
    HexIdForms(low, vid, "8086");
    if vid == "10de" then Some("nvidia")
    else if vid == "1002" then Some("amd")
    else if vid == "8086" then Some("intel")
    else None
  }

  /** `text`, stripped and lower-cased, is `id` with or without a `0x` prefix. */
  predicate NamesId(text: string, id: string) {
    var low := Text.Lower(Text.Strip(text));
    low == id || low == "0x" + id
  }

  /** A vendor id not starting with `0` is named by the text itself or by
      the text with a `0x` prefix, and by nothing else. */
  lemma HexIdForms(low: string, vid: string, id: string)
    requires vid == (if Text.StartsWith(low, "0x") then low[2..] else low)
    requires id != [] && id[0] != '0'
    ensures vid == id <==> low == id || low == "0x" + id
  {
    if low == "0x" + id {
      assert low[..2] == "0x";
    }
    if Text.StartsWith(low, "0x") {
      assert low == "0x" + low[2..];
      assert low[0] == '0';
    }
  }

  /** The vendor one vendor file names; `None` for an unreadable file. */
  function NamedVendor(id: Option<string>): Option<string> {
    if id.Some? then VendorOfPciId(id.value) else None
  }

  /** The vendor each vendor file names, file by file. */
  function NamedVendors(ids: seq<Option<string>>): (named: seq<Option<string>>)
    ensures |named| == |ids|
    ensures forall k :: 0 <= k < |ids| ==> named[k] == NamedVendor(ids[k])
  {
    seq(|ids|, k requires 0 <= k < |ids| => NamedVendor(ids[k]))
  }

  /** The vendors named by the readable vendor files, in order, repeats kept. */
  function SysfsVendors(ids: seq<Option<string>>): seq<string> {
    Seqs.Somes(NamedVendors(ids))
  }

  /** `_gpu_vendors_from_sysfs`: `ids` holds the contents of each
      `card*` vendor file under /sys/class/drm, in glob order (`None` for a
      file whose read raised); an absent /sys/class/drm is the empty
      sequence. */
  method GpuVendorsFromSysfs(ids: seq<Option<string>>) returns (vendors: seq<string>)
    ensures vendors == Seqs.Dedup(SysfsVendors(ids))
  {
    var found: seq<string> := [];
    var i := 0;
    while i < |ids|
      invariant i <= |ids|
      invariant found == SysfsVendors(ids[..i])
    {
      var named := NamedVendors(ids[..i + 1]);
      assert named[..i] == NamedVendors(ids[..i]);
      assert named[i] == NamedVendor(ids[i]);
      var entry := ids[i];
      if entry.Some? {
        var v := VendorOfPciId(entry.value);
        if v.Some? {
          found := found + [v.value];
        }
      }
      i := i + 1;
    }
    assert ids[..i] == ids;
    vendors := Seqs.DedupInOrder(found);
  }

  /** Every reported vendor is a known one, reported once, and a vendor is
      reported exactly when some readable vendor file names it. */
  lemma SysfsVendorsMembership(ids: seq<Option<string>>, v: string)
    ensures v in Seqs.Dedup(SysfsVendors(ids)) <==> exists k :: 0 <= k < |ids| && NamedVendor(ids[k]) == Some(v)
    ensures Seqs.Distinct(Seqs.Dedup(SysfsVendors(ids)))
    ensures forall k :: 0 <= k < |Seqs.Dedup(SysfsVendors(ids))| ==> IsGpuVendor(Seqs.Dedup(SysfsVendors(ids))[k])
  {
    var named := NamedVendors(ids);
    Seqs.SomesMembership(named, v);
    if k :| 0 <= k < |ids| && NamedVendor(ids[k]) == Some(v) {
      assert named[k] == Some(v);
    }
    var all := SysfsVendors(ids);
    forall k | 0 <= k < |Seqs.Dedup(all)| ensures IsGpuVendor(Seqs.Dedup(all)[k]) {
      var x := Seqs.Dedup(all)[k];
      Seqs.SomesMembership(named, x);
      var j :| 0 <= j < |named| && named[j] == Some(x);
      assert NamedVendor(ids[j]) == Some(x);
    }
  }

  /** `_gpu_modules_present`: `lsmod` is the lower-cased list of loaded
      module names. */
  function GpuModulesPresent(lsmod: string): (vs: seq<string>)
    ensures Seqs.Distinct(vs)
    ensures "nvidia" in vs <==> Text.Contains(lsmod, "nvidia")
    ensures "amd" in vs <==> Text.Contains(lsmod, "amdgpu") || Text.Contains(lsmod, "radeon")
    ensures "intel" in vs <==> Text.Contains(lsmod, "i915")
    ensures forall k :: 0 <= k < |vs| ==> IsGpuVendor(vs[k])
  {
    GpuList(Text.Contains(lsmod, "nvidia"), Text.Contains(lsmod, "amdgpu") || Text.Contains(lsmod, "radeon"),
            Text.Contains(lsmod, "i915"))
  }

  /** `detect_gpu_vendors`: lspci first, sysfs only when lspci found nothing. */
  method DetectGpuVendors(lspci: string, sysfsIds: seq<Option<string>>) returns (vendors: seq<string>)
    ensures GpuVendorsFromLspciAsWritten(lspci) != [] ==> vendors == GpuVendorsFromLspciAsWritten(lspci)
    ensures GpuVendorsFromLspciAsWritten(lspci) == [] ==> vendors == Seqs.Dedup(SysfsVendors(sysfsIds))
    ensures Seqs.Distinct(vendors)
    ensures forall k :: 0 <= k < |vendors| ==> IsGpuVendor(vendors[k])
  {
    vendors := GpuVendorsFromLspciAsWritten(lspci);
    if vendors == [] {
      vendors := GpuVendorsFromSysfs(sysfsIds);
      SysfsVendorsMembership(sysfsIds, "");
    }
  }

  /** The same composition over the corrected lspci probe. */
  method DetectGpuVendorsCorrected(lspci: string, sysfsIds: seq<Option<string>>) returns (vendors: seq<string>)
    ensures GpuVendorsFromLspci(lspci) != [] ==> vendors == GpuVendorsFromLspci(lspci)
    ensures GpuVendorsFromLspci(lspci) == [] ==> vendors == Seqs.Dedup(SysfsVendors(sysfsIds))
    ensures Seqs.Distinct(vendors)
    ensures forall k :: 0 <= k < |vendors| ==> IsGpuVendor(vendors[k])
  {
    vendors := GpuVendorsFromLspci(lspci);
    if vendors == [] {
      vendors := GpuVendorsFromSysfs(sysfsIds);
      SysfsVendorsMembership(sysfsIds, "");
    }
  }
}
