/** `shlex.quote`, the quoting the installer applies to every package name,
    sentinel path and script it hands to a shell, and the part of POSIX shell
    word splitting and quote removal (Shell Command Language, sections 2.2.2
    "Single-Quotes", 2.2.3 "Double-Quotes" and 2.6.5 "Field Splitting") that
    is needed to read the quoted text back. */
module ShellQuote {
  import opened Wrappers
  import Text

  /** The characters `shlex.quote` leaves bare: `[A-Za-z0-9_@%+=:,./-]`. */
  predicate IsSafeChar(c: char) {
    || ('a' <= c <= 'z') || ('A' <= c <= 'Z') || ('0' <= c <= '9')
    || c == '_' || c == '@' || c == '%' || c == '+' || c == '='
    || c == ':' || c == ',' || c == '.' || c == '/' || c == '-'
  }

  predicate IsSafe(s: string) {
    forall i :: 0 <= i < |s| ==> IsSafeChar(s[i])
  }

  /** Every `'` of `s` becomes `'"'"'`: close the quote, a double-quoted `'`,
      reopen the quote. */
  function EscapeQuotes(s: string): (r: string)
    ensures |r| >= |s|
  {
    if s == [] then []
    else (if s[0] == '\'' then "'\"'\"'" else [s[0]]) + EscapeQuotes(s[1..])
  }

  /** `shlex.quote(s)` */
  function Quote(s: string): (r: string)
    ensures s != [] && IsSafe(s) ==> r == s
    ensures !(s != [] && IsSafe(s)) ==> |r| >= 2 && r[0] == '\'' && r[|r| - 1] == '\''
  {
    if s == [] then "''"
    else if IsSafe(s) then s
    else "'" + EscapeQuotes(s) + "'"
  }

  /** `[shlex.quote(p) for p in ps]` */
  function QuoteEach(ps: seq<string>): (qs: seq<string>)
    ensures |qs| == |ps|
    ensures forall i :: 0 <= i < |ps| ==> qs[i] == Quote(ps[i])
  {
    if ps == [] then [] else [Quote(ps[0])] + QuoteEach(ps[1..])
  }

  /** `" ".join(shlex.quote(p) for p in ps)` */
  function QuoteAll(ps: seq<string>): string {
    Text.Join(QuoteEach(ps), " ")
  }

  // ---------------------------------------------------------------------------
  // Reading a quoted text back: field splitting and quote removal
  // ---------------------------------------------------------------------------

  datatype Mode = Bare | InSingle | InDouble

  function Cons(w: string, rest: Option<seq<string>>): Option<seq<string>> {
    match rest
    case None => None
    case Some(ws) => Some([w] + ws)
  }

  /** The words a shell reads from `s`. `mode` is the quoting in force, `cur`
      the word read so far and `inWord` whether a word has started (an empty
      quoted word `''` is a word). Text outside the subset this models (an
      unquoted operator or expansion character, `$`, a backquote or a
      backslash in double quotes, an unterminated quote) yields `None`. */
  function Lex(s: string, mode: Mode, cur: string, inWord: bool): Option<seq<string>>
    decreases |s|
  {
    if s == [] then
      if mode != Bare then None
      else if inWord then Some([cur])
      else Some([])
    else
      var c := s[0];
      match mode
      case InSingle =>
        if c == '\'' then Lex(s[1..], Bare, cur, true)
        else Lex(s[1..], InSingle, cur + [c], true)
      case InDouble =>
        if c == '"' then Lex(s[1..], Bare, cur, true)
        else if c == '\\' || c == '$' || c == '`' then None
        else Lex(s[1..], InDouble, cur + [c], true)
      case Bare =>
        if c == ' ' || c == '\t' then
          if inWord then Cons(cur, Lex(s[1..], Bare, [], false))
          else Lex(s[1..], Bare, [], false)
        else if c == '\'' then Lex(s[1..], InSingle, cur, true)
        else if c == '"' then Lex(s[1..], InDouble, cur, true)
        else if IsSafeChar(c) then Lex(s[1..], Bare, cur + [c], true)
        else None
  }

  /** The words of a whole command line. */
  function Words(s: string): Option<seq<string>> {
    Lex(s, Bare, [], false)
  }

  lemma {:induction false} LexSafe(p: string, rest: string, cur: string, inWord: bool)
    requires IsSafe(p)
    ensures Lex(p + rest, Bare, cur, inWord) == Lex(rest, Bare, cur + p, inWord || p != [])
    decreases |p|
  {
    if p == [] {
      assert p + rest == rest && cur + p == cur;
    } else {
      assert (p + rest)[0] == p[0] && (p + rest)[1..] == p[1..] + rest;
      assert IsSafe(p[1..]);
      LexSafe(p[1..], rest, cur + [p[0]], true);
      assert cur + [p[0]] + p[1..] == cur + p;
    }
  }

  lemma OpenSingle(t: string, cur: string, inWord: bool)
    requires t != [] && t[0] == '\''
    ensures Lex(t, Bare, cur, inWord) == Lex(t[1..], InSingle, cur, true)
  {
  }

  lemma {:induction false} LexEscaped(p: string, rest: string, cur: string)
    ensures Lex(EscapeQuotes(p) + "'" + rest, InSingle, cur, true) == Lex(rest, Bare, cur + p, true)
    decreases |p|
  {
    var t := EscapeQuotes(p) + "'" + rest;
    if p == [] {
      assert EscapeQuotes(p) == [];
      assert t == "'" + rest && t[0] == '\'' && t[1..] == rest;
      assert cur + p == cur;
    } else {
      var tail := EscapeQuotes(p[1..]) + "'" + rest;
      LexEscaped(p[1..], rest, cur + [p[0]]);
      assert cur + [p[0]] + p[1..] == cur + p;
      if p[0] == '\'' {
        assert t == "'\"'\"'" + tail;
        assert [p[0]] == "'";
        LexQuoteEscape(tail, cur);
      } else {
        assert t == [p[0]] + tail && t[0] == p[0] && t[1..] == tail;
      }
    }
  }

  /** The escape `'"'"'` inside a single-quoted text contributes one `'`. */
  lemma LexQuoteEscape(tail: string, cur: string)
    ensures Lex("'\"'\"'" + tail, InSingle, cur, true) == Lex(tail, InSingle, cur + "'", true)
  {
    var t := "'\"'\"'" + tail;
    assert t[0] == '\'' && t[1..] == "\"'\"'" + tail;
    assert t[1] == '"' && t[2..] == "'\"'" + tail;
    assert t[2] == '\'' && t[3..] == "\"'" + tail;
    assert t[3] == '"' && t[4..] == "'" + tail;
    assert t[4] == '\'' && t[5..] == tail;
    calc {
      Lex(t, InSingle, cur, true);
      Lex(t[1..], Bare, cur, true);
      Lex(t[2..], InDouble, cur, true);
      Lex(t[3..], InDouble, cur + "'", true);
      Lex(t[4..], Bare, cur + "'", true);
      { OpenSingle(t[4..], cur + "'", true); }
      Lex(t[5..], InSingle, cur + "'", true);
    }
  }

  /** Reading `shlex.quote(p)` back yields exactly `p`, as one word (or part of one). */
  lemma LexQuote(p: string, rest: string, cur: string, inWord: bool)
    ensures Lex(Quote(p) + rest, Bare, cur, inWord) == Lex(rest, Bare, cur + p, true)
  {
    if p == [] {
      LexEmptyQuoted(rest, cur, inWord);
      assert cur + p == cur;
    } else if IsSafe(p) {
      LexSafe(p, rest, cur, inWord);
    } else {
      assert Quote(p) + rest == "'" + (EscapeQuotes(p) + "'" + rest);
      LexQuoted(p, rest, cur, inWord);
    }
  }

  lemma LexEmptyQuoted(rest: string, cur: string, inWord: bool)
    ensures Lex("''" + rest, Bare, cur, inWord) == Lex(rest, Bare, cur, true)
  {
    var t := "''" + rest;
    assert t[0] == '\'' && t[1..] == "'" + rest;
    OpenSingle(t, cur, inWord);
    var u := "'" + rest;
    assert u[0] == '\'' && u[1..] == rest;
  }

  lemma LexQuoted(p: string, rest: string, cur: string, inWord: bool)
    ensures Lex("'" + (EscapeQuotes(p) + "'" + rest), Bare, cur, inWord) == Lex(rest, Bare, cur + p, true)
  {
    var t := "'" + (EscapeQuotes(p) + "'" + rest);
    assert t[0] == '\'' && t[1..] == EscapeQuotes(p) + "'" + rest;
    OpenSingle(t, cur, inWord);
    LexEscaped(p, rest, cur);
  }

  /** A shell splits `QuoteAll(ps)` into exactly the words `ps`: every name is
      passed as one argument, unchanged, whatever characters it holds. */
  lemma {:induction false} WordsOfQuoteAll(ps: seq<string>)
    ensures Words(QuoteAll(ps)) == Some(ps)
    decreases |ps|
  {
    if |ps| == 1 {
      QuoteAllOne(ps);
      LexQuote(ps[0], [], [], false);
      assert Quote(ps[0]) + [] == Quote(ps[0]);
      assert [] + ps[0] == ps[0];
      assert ps == [ps[0]];
    } else if |ps| > 1 {
      var rest := QuoteAll(ps[1..]);
      QuoteAllCons(ps);
      LexQuote(ps[0], " " + rest, [], false);
      assert [] + ps[0] == ps[0];
      LexBlank(rest, ps[0]);
      WordsOfQuoteAll(ps[1..]);
      assert [ps[0]] + ps[1..] == ps;
    }
  }

  lemma QuoteAllOne(ps: seq<string>)
    requires |ps| == 1
    ensures QuoteAll(ps) == Quote(ps[0])
  {
  }

  lemma QuoteAllCons(ps: seq<string>)
    requires |ps| > 1
    ensures QuoteAll(ps) == Quote(ps[0]) + (" " + QuoteAll(ps[1..]))
  {
    Text.JoinCons(Quote(ps[0]), QuoteEach(ps[1..]), " ");
  }

  /** An unquoted blank ends the word read so far. */
  lemma LexBlank(rest: string, cur: string)
    ensures Lex(" " + rest, Bare, cur, true) == Cons(cur, Lex(rest, Bare, [], false))
  {
    var t := " " + rest;
    assert t[0] == ' ' && t[1..] == rest;
  }

  /** `shlex.quote` changes nothing in a non-empty name made of safe characters,
      so a command of such words quotes to itself. */
  lemma QuoteAllSafe(ps: seq<string>)
    requires forall i :: 0 <= i < |ps| ==> ps[i] != [] && IsSafe(ps[i])
    ensures QuoteAll(ps) == Text.Join(ps, " ")
  {
    assert QuoteEach(ps) == ps;
  }

  /** A fixed command followed by quoted arguments is read as the command's
      words followed by the arguments. */
  lemma WordsOfCommand(cmd: seq<string>, args: seq<string>)
    requires cmd != [] && args != []
    requires forall i :: 0 <= i < |cmd| ==> cmd[i] != [] && IsSafe(cmd[i])
    ensures Words(Text.Join(cmd, " ") + " " + QuoteAll(args)) == Some(cmd + args)
  {
    var all := cmd + args;
    assert QuoteEach(all) == cmd + QuoteEach(args) by {
      QuoteEachAppend(cmd, args);
      assert QuoteEach(cmd) == cmd;
    }
    JoinAppend(cmd, QuoteEach(args), " ");
    WordsOfQuoteAll(all);
  }

  lemma {:induction false} QuoteEachAppend(xs: seq<string>, ys: seq<string>)
    ensures QuoteEach(xs + ys) == QuoteEach(xs) + QuoteEach(ys)
    decreases |xs|
  {
    if xs == [] {
      assert xs + ys == ys;
    } else {
      assert (xs + ys)[1..] == xs[1..] + ys;
      QuoteEachAppend(xs[1..], ys);
    }
  }

  lemma {:induction false} JoinAppend(xs: seq<string>, ys: seq<string>, sep: string)
    requires xs != [] && ys != []
    ensures Text.Join(xs + ys, sep) == Text.Join(xs, sep) + sep + Text.Join(ys, sep)
    decreases |xs|
  {
    if |xs| == 1 {
      assert xs + ys == [xs[0]] + ys;
      Text.JoinCons(xs[0], ys, sep);
    } else {
      assert xs + ys == [xs[0]] + (xs[1..] + ys);
      Text.JoinCons(xs[0], xs[1..] + ys, sep);
      JoinAppend(xs[1..], ys, sep);
      Text.JoinCons(xs[0], xs[1..], sep);
      assert [xs[0]] + xs[1..] == xs;
    }
  }

  /** `bash -lc <quoted script>`, the string form some terminals take, is read
      as the three words `bash`, `-lc` and the script itself. */
  lemma WordsOfBashLc(script: string)
    ensures Words("bash -lc " + Quote(script)) == Some(["bash", "-lc", script])
  {
    var cmd := ["bash", "-lc"];
    assert IsSafe("bash") && IsSafe("-lc");
    assert Text.Join(cmd, " ") == "bash -lc" by {
      Text.JoinCons("bash", ["-lc"], " ");
    }
    QuoteAllOne([script]);
    WordsOfCommand(cmd, [script]);
    var line := Text.Join(cmd, " ") + " " + QuoteAll([script]);
    assert "bash -lc " == "bash -lc" + " ";
    assert line == "bash -lc " + Quote(script);
    var expected: seq<string> := ["bash", "-lc", script];
    assert cmd + [script] == expected;
    assert Words(line) == Some(expected);
  }
}
