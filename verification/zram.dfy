/** The compressed-swap parameters (`_choose_zram_params`) and the
    total-memory probe that feeds them (`_detect_total_ram_mib`). */
module Zram {
  import opened Wrappers
  import Text

  /** What `_choose_zram_params` returns: the `zram-size` text, the
      `compression-algorithm` name and the `vm.swappiness` value. */
  datatype ZramParams = ZramParams(size: string, compression: string, swappiness: int)

  /** The device size before rounding. `int(ram_mib * 0.75)` is `ram_mib * 3 / 4`
      rounded down: the product is exact in binary floating point for every
      RAM size that reaches that branch, and `int` truncates a positive value. */
  function RawSizeMib(ramMib: int): int {
    if ramMib <= 4096 then ramMib
    else if ramMib <= 8192 then ramMib * 3 / 4
    else if ramMib <= 16384 then ramMib / 2
    else if ramMib <= 65536 then 8192
    else 16384
  }

  /** `max(256, (size_mib // 256) * 256)`: the raw size rounded down to a
      multiple of 256 MiB, never below 256 MiB. */
  function SizeMib(ramMib: int): (size: int)
    ensures size >= 256 && size % 256 == 0
    ensures size <= 16384
    ensures RawSizeMib(ramMib) >= 256 ==> size <= RawSizeMib(ramMib) < size + 256
    ensures RawSizeMib(ramMib) < 256 ==> size == 256
    ensures ramMib >= 256 ==> size <= ramMib
  {
    var rounded := (RawSizeMib(ramMib) / 256) * 256;
    if rounded < 256 then 256 else rounded
  }

  /** `f"{size // 1024}G"` for whole gibibytes, else `f"{size}M"`. */
  function SizeLabel(sizeMib: nat): string {
    if sizeMib % 1024 == 0 then Text.NatToString(sizeMib / 1024) + "G"
    else Text.NatToString(sizeMib) + "M"
  }

  function Compression(cores: int): (name: string)
    ensures cores <= 2 ==> name == "lzo-rle"
    ensures 2 < cores <= 8 ==> name == "lz4"
    ensures 8 < cores ==> name == "zstd"
  {
    if cores <= 2 then "lzo-rle" else if cores <= 8 then "lz4" else "zstd"
  }

  function Swappiness(ramMib: int): (value: int)
    ensures ramMib <= 8192 ==> value == 100
    ensures 8192 < ramMib <= 16384 ==> value == 80
    ensures 16384 < ramMib ==> value == 60
  {
    if ramMib <= 8192 then 100 else if ramMib <= 16384 then 80 else 60
  }

  /** `_choose_zram_params` with the two probes as parameters. */
  function ChooseZramParams(ramMib: int, cores: int): (p: ZramParams)
    ensures p.compression == Compression(cores) && p.swappiness == Swappiness(ramMib)
  {
    ZramParams(SizeLabel(SizeMib(ramMib)), Compression(cores), Swappiness(ramMib))
  }

  /** Reads a size label back: `<n>G` is `n * 1024` MiB, `<n>M` is `n` MiB. */
  function ParseSizeLabel(text: string): Option<int> {
    if |text| < 2 then None
    else
      var suffix := text[|text| - 1];
      var digits := text[..|text| - 1];
      match Text.ParseInt(digits)
      case None => None
      case Some(n) =>
        if digits[0] == '-' || digits[0] == '+' then None
        else if suffix == 'G' then Some(n * 1024)
        else if suffix == 'M' then Some(n)
        else None
  }

  /** The label names exactly the chosen size, in `G` exactly when the size
      is a whole number of gibibytes. */
  lemma SizeLabelRoundTrip(sizeMib: nat)
    ensures ParseSizeLabel(SizeLabel(sizeMib)) == Some(sizeMib)
    ensures (SizeLabel(sizeMib)[|SizeLabel(sizeMib)| - 1] == 'G') <==> sizeMib % 1024 == 0
  {
    var text := SizeLabel(sizeMib);
    var n := if sizeMib % 1024 == 0 then sizeMib / 1024 else sizeMib;
    var d := Text.NatToString(n);
    assert text[..|text| - 1] == d;
    Text.ParseIntOfNat(n);
    assert Text.IsDigit(d[0]);
  }

  /** The size the tuner writes to the configuration reads back as a multiple
      of 256 MiB of at least 256 MiB, and never more than the machine's RAM
      once it has at least 256 MiB. */
  lemma ZramSizeBounds(ramMib: int, cores: int)
    ensures var p := ChooseZramParams(ramMib, cores);
      exists size :: ParseSizeLabel(p.size) == Some(size)
        && size >= 256 && size % 256 == 0
        && (ramMib >= 256 ==> size <= ramMib)
  {
    SizeLabelRoundTrip(SizeMib(ramMib));
  }

  /** The worked examples: 8 GiB with 4 cores, 16 GiB with 10 cores,
      about 98 GiB with 16 cores, 2 GiB with 1 core. */
  lemma ZramExample8G()
    ensures ChooseZramParams(8192, 4) == ZramParams("6G", "lz4", 100)
  {
    assert SizeMib(8192) == 6144;
    assert Text.NatToString(6) == "6";
    assert SizeLabel(6144) == "6G";
  }

  lemma ZramExample16G()
    ensures ChooseZramParams(16384, 10) == ZramParams("8G", "zstd", 80)
  {
    assert SizeMib(16384) == 8192;
    assert Text.NatToString(8) == "8";
    assert SizeLabel(8192) == "8G";
  }

  lemma ZramExampleLarge()
    ensures ChooseZramParams(100000, 16) == ZramParams("16G", "zstd", 60)
  {
    assert SizeMib(100000) == 16384;
    assert Text.NatToString(1) == "1";
    assert Text.NatToString(16) == "16";
    assert SizeLabel(16384) == "16G";
  }

  lemma ZramExampleSmall()
    ensures ChooseZramParams(2048, 1) == ZramParams("2G", "lzo-rle", 100)
  {
    assert SizeMib(2048) == 2048;
    assert Text.NatToString(2) == "2";
    assert SizeLabel(2048) == "2G";
  }

  // ---------------------------------------------------------------------------
  // Total memory
  // ---------------------------------------------------------------------------

  /** The value of the first `MemTotal:` line of /proc/meminfo, in kB; `None`
      when there is no such line or its second field is not an integer. */
  function MemTotalKb(lines: seq<string>): Option<int> {
    if lines == [] then None
    else if Text.StartsWith(lines[0], "MemTotal:") then
      var words := Text.SplitWords(lines[0]);
      if |words| >= 2 then Text.ParseInt(words[1]) else None
    else MemTotalKb(lines[1..])
  }

  /** `_detect_total_ram_mib`: /proc/meminfo (`None` when unreadable), else the
      output of `free -m` (`None` when the command fails), else 4096. */
  function DetectTotalRamMib(meminfo: Option<string>, freeOut: Option<string>): (mib: int)
    ensures freeOut.None? && (meminfo.None? || MemTotalKb(Text.SplitLines(meminfo.value)).None?) ==> mib == 4096
    ensures meminfo.None? ==> mib == 4096 || (freeOut.Some? && Text.ParseInt(Text.Strip(freeOut.value)) == Some(mib))
  {
    var kb := if meminfo.Some? then MemTotalKb(Text.SplitLines(meminfo.value)) else None;
    if kb.Some? then kb.value / 1024
    else if freeOut.Some? && Text.ParseInt(Text.Strip(freeOut.value)).Some? then
      Text.ParseInt(Text.Strip(freeOut.value)).value
    else 4096
  }

  lemma {:induction false} WordLengthOfWord(w: string, rest: string)
    requires forall i :: 0 <= i < |w| ==> !Text.IsSpace(w[i])
    requires rest == [] || Text.IsSpace(rest[0])
    ensures Text.WordLength(w + rest) == |w|
    decreases |w|
  {
    if w != [] {
      assert (w + rest)[1..] == w[1..] + rest;
      WordLengthOfWord(w[1..], rest);
    } else {
      assert w + rest == rest;
    }
  }

  /** A word followed by whitespace or the end is split off first. */
  lemma SplitWordsWord(w: string, rest: string)
    requires w != [] && forall i :: 0 <= i < |w| ==> !Text.IsSpace(w[i])
    requires rest == [] || Text.IsSpace(rest[0])
    ensures Text.SplitWords(w + rest) == [w] + Text.SplitWords(rest)
  {
    assert Text.LStrip(w + rest) == w + rest by {
      assert (w + rest)[0] == w[0];
    }
    WordLengthOfWord(w, rest);
    assert (w + rest)[..|w|] == w;
    assert (w + rest)[|w|..] == rest;
  }

  /** Leading spaces do not change the words. */
  lemma SplitWordsSpaces(pad: string, rest: string)
    requires forall i :: 0 <= i < |pad| ==> pad[i] == ' '
    ensures Text.SplitWords(pad + rest) == Text.SplitWords(rest)
  {
    LStripSpaces(pad, rest);
  }

  lemma {:induction false} LStripSpaces(pad: string, rest: string)
    requires forall i :: 0 <= i < |pad| ==> pad[i] == ' '
    ensures Text.LStrip(pad + rest) == Text.LStrip(rest)
    decreases |pad|
  {
    if pad == [] {
      assert pad + rest == rest;
    } else {
      assert (pad + rest)[1..] == pad[1..] + rest;
      LStripSpaces(pad[1..], rest);
    }
  }

  /** Two words after a leading word, separated by whitespace. */
  lemma ThreeWords(a: string, pad: string, b: string, c: string)
    requires a != [] && forall i :: 0 <= i < |a| ==> !Text.IsSpace(a[i])
    requires b != [] && forall i :: 0 <= i < |b| ==> !Text.IsSpace(b[i])
    requires c != [] && forall i :: 0 <= i < |c| ==> !Text.IsSpace(c[i])
    requires pad != [] && forall i :: 0 <= i < |pad| ==> pad[i] == ' '
    ensures Text.SplitWords(a + (pad + (b + ([' '] + c)))) == [a, b, c]
  {
    var rest := pad + (b + ([' '] + c));
    TwoWords(b, c);
    SplitWordsSpaces(pad, b + ([' '] + c));
    assert rest[0] == pad[0] == ' ';
    SplitWordsWord(a, rest);
    ConsOfTwo(a, b, c);
  }

  lemma TwoWords(b: string, c: string)
    requires b != [] && forall i :: 0 <= i < |b| ==> !Text.IsSpace(b[i])
    requires c != [] && forall i :: 0 <= i < |c| ==> !Text.IsSpace(c[i])
    ensures Text.SplitWords(b + ([' '] + c)) == [b, c]
  {
    var tail := [' '] + c;
    SplitWordsSpaces([' '], c);
    OneWord(c);
    assert tail[0] == ' ';
    SplitWordsWord(b, tail);
    ConsOfOne(b, c);
  }

  lemma OneWord(c: string)
    requires c != [] && forall i :: 0 <= i < |c| ==> !Text.IsSpace(c[i])
    ensures Text.SplitWords(c) == [c]
  {
    SplitWordsWord(c, []);
    assert c + [] == c;
    assert Text.SplitWords([]) == [];
  }

  lemma ConsOfOne(b: string, c: string)
    ensures [b] + [c] == [b, c]
  {
  }

  lemma ConsOfTwo(a: string, b: string, c: string)
    ensures [a] + [b, c] == [a, b, c]
  {
  }

  lemma KeyHasNoSpace()
    ensures forall i :: 0 <= i < |"MemTotal:"| ==> !Text.IsSpace("MemTotal:"[i])
  {
    var key: string := "MemTotal:";
    forall i | 0 <= i < |key| ensures !Text.IsSpace(key[i]) {
      assert '0' <= key[i] <= 'z';
    }
  }

  /** `"MemTotal:" + spaces + digits + " kB"` splits into its three fields. */
  lemma MemTotalWords(pad: string, kb: nat)
    requires pad != [] && forall i :: 0 <= i < |pad| ==> pad[i] == ' '
    ensures Text.SplitWords("MemTotal:" + pad + Text.NatToString(kb) + " kB")
         == ["MemTotal:", Text.NatToString(kb), "kB"]
  {
    var d := Text.NatToString(kb);
    KeyHasNoSpace();
    assert !Text.IsSpace('k') && !Text.IsSpace('B');
    ThreeWords("MemTotal:", pad, d, "kB");
    Regroup(pad, d);
  }

  lemma Regroup(pad: string, d: string)
    ensures "MemTotal:" + pad + d + " kB" == "MemTotal:" + (pad + (d + ([' '] + "kB")))
  {
  }

  /** A meminfo text whose first `MemTotal:` line reports `kb` kB gives
      `kb // 1024` MiB, whatever else the file holds. */
  lemma MemTotalParsed(before: seq<string>, pad: string, kb: nat, after: seq<string>)
    requires forall i :: 0 <= i < |before| ==> !Text.StartsWith(before[i], "MemTotal:")
    requires pad != [] && forall i :: 0 <= i < |pad| ==> pad[i] == ' '
    ensures MemTotalKb(before + ["MemTotal:" + pad + Text.NatToString(kb) + " kB"] + after) == Some(kb)
    decreases |before|
  {
    var line := "MemTotal:" + pad + Text.NatToString(kb) + " kB";
    if before == [] {
      assert (before + [line] + after)[0] == line;
      assert Text.StartsWith(line, "MemTotal:");
      MemTotalWords(pad, kb);
      Text.ParseIntOfNat(kb);
    } else {
      assert (before + [line] + after)[1..] == before[1..] + [line] + after;
      MemTotalParsed(before[1..], pad, kb, after);
    }
  }

  /** When /proc/meminfo reports `MemTotal`, its value in MiB (rounded down)
      is the answer and `free` is never consulted. */
  lemma MeminfoPreferred(text: string, before: seq<string>, pad: string, kb: nat,
                         after: seq<string>, freeOut: Option<string>)
    requires Text.SplitLines(text) == before + ["MemTotal:" + pad + Text.NatToString(kb) + " kB"] + after
    requires forall i :: 0 <= i < |before| ==> !Text.StartsWith(before[i], "MemTotal:")
    requires pad != [] && forall i :: 0 <= i < |pad| ==> pad[i] == ' '
    ensures DetectTotalRamMib(Some(text), freeOut) == kb / 1024
  {
    MemTotalParsed(before, pad, kb, after);
  }

  /** Without a usable meminfo, the number printed by `free` is used, and
      4096 MiB when that command fails. */
  lemma FreeFallback(meminfo: Option<string>, n: nat)
    requires meminfo.None? || MemTotalKb(Text.SplitLines(meminfo.value)).None?
    ensures DetectTotalRamMib(meminfo, Some(Text.NatToString(n) + "\n")) == n
    ensures DetectTotalRamMib(meminfo, None) == 4096
  {
    StripNumberLine(n);
    Text.ParseIntOfNat(n);
  }

  /** The output of `free -m ... | awk ...`: a number and a newline. */
  lemma StripNumberLine(n: nat)
    ensures Text.Strip(Text.NatToString(n) + "\n") == Text.NatToString(n)
  {
    var d := Text.NatToString(n);
    StripDigitsLine(d);
  }

  lemma StripDigitsLine(d: string)
    requires d != [] && Text.IsDigit(d[0]) && Text.IsDigit(d[|d| - 1])
    ensures Text.Strip(d + "\n") == d
  {
    var out := d + "\n";
    assert Text.LStrip(out) == out by {
      assert out[0] == d[0];
      NoDigitIsSpace(d[0]);
    }
    assert Text.RStrip(out) == Text.RStrip(d) by {
      assert out[|out| - 1] == '\n';
      assert out[..|out| - 1] == d;
    }
    assert Text.RStrip(d) == d by {
      NoDigitIsSpace(d[|d| - 1]);
    }
  }

  lemma NoDigitIsSpace(c: char)
    requires Text.IsDigit(c)
    ensures !Text.IsSpace(c)
  {
  }
}
