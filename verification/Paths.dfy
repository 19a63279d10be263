/** Dropped paths as a shell reads them back. Strings are sequences of Unicode characters. */
module Paths {
  import opened Wrappers

  // ---------- Printing ----------

  predicate Control(c: char) {
    c < ' ' || c == 127 as char
  }

  predicate WordChar(c: char) {
    'a' <= c <= 'z' || 'A' <= c <= 'Z' || '0' <= c <= '9' || c == '_'
  }

  /** What is left bare: word characters, `@%+:,./=-`, and everything past ASCII. */
  predicate Bare(c: char) {
    WordChar(c) || c in "@%+:,./=-" || c >= 128 as char
  }

  /** Every character replaced by a string. */
  function Each(s: string, f: char -> string): string {
    if |s| == 0 then "" else f(s[0]) + Each(s[1..], f)
  }

  function Swap(from: char, with: string): char -> string {
    c => if c == from then with else [c]
  }

  function Digit(n: int): char
    requires 0 <= n < 8
  {
    (n + 48) as char
  }

  /** A control character's three octal digits. */
  function Octal(c: char): string
    requires Control(c)
  {
    [Digit(c as int / 64), Digit(c as int / 8 % 8), Digit(c as int % 8)]
  }

  function OctalEscape(c: char): string {
    if Control(c) then "\\" + Octal(c) else [c]
  }

  /** The replacements as they are chained, one over the other's result. */
  function Chained(path: string): string {
    Each(Each(Each(Each(Each(Each(path,
      Swap('\\', "\\\\")), Swap('\'', "\\'")), Swap('\n', "\\n")), Swap('\r', "\\r")), Swap('\t', "\\t")), OctalEscape)
  }

  function BackslashEscape(c: char): string {
    if Bare(c) then [c] else ['\\', c]
  }

  predicate HasControl(path: string) {
    exists i :: 0 <= i < |path| && Control(path[i])
  }

  function EscapePath(path: string): string {
    if !HasControl(path) then Each(path, BackslashEscape) else "$'" + Chained(path) + "'"
  }

  function Joined(paths: seq<string>): string {
    if |paths| == 0 then ""
    else if |paths| == 1 then EscapePath(paths[0])
    else EscapePath(paths[0]) + " " + Joined(paths[1..])
  }

  /** What stands between the paste markers. */
  function PasteBody(paths: seq<string>): string {
    Joined(paths) + " "
  }

  const ESC: char := 27 as char

  function PastePaths(paths: seq<string>): string {
    [ESC] + "[200~" + PasteBody(paths) + [ESC] + "[201~"
  }

  // ---------- Reading, as a shell does ----------

  /** Three octal digits as a character. What becomes of a NUL is not specified, so it is not read. */
  function OctalValue(a: char, b: char, c: char): Option<char> {
    if '0' <= a <= '1' && '0' <= b <= '7' && '0' <= c <= '7' && !(a == b == c == '0')
    then Some(((a as int - 48) * 64 + (b as int - 48) * 8 + (c as int - 48)) as char)
    else None
  }

  function Cons(c: char, r: Option<(string, string)>): Option<(string, string)> {
    if r.Some? then Some(([c] + r.value.0, r.value.1)) else None
  }

  /** Inside `$'…'`: backslash escapes, up to the closing quote. */
  function ReadDollar(s: string): Option<(string, string)>
    decreases |s|
  {
    if |s| == 0 then None
    else if s[0] == '\'' then ReadWord(s[1..])
    else if s[0] != '\\' then Cons(s[0], ReadDollar(s[1..]))
    else if |s| < 2 then None
    else if s[1] == '\\' || s[1] == '\'' then Cons(s[1], ReadDollar(s[2..]))
    else if s[1] == 'n' then Cons('\n', ReadDollar(s[2..]))
    else if s[1] == 'r' then Cons('\r', ReadDollar(s[2..]))
    else if s[1] == 't' then Cons('\t', ReadDollar(s[2..]))
    else if |s| < 4 || OctalValue(s[1], s[2], s[3]).None? then None
    else Cons(OctalValue(s[1], s[2], s[3]).value, ReadDollar(s[4..]))
  }

  /** One word, up to an unquoted space; None for anything a shell would act on otherwise. */
  function ReadWord(s: string): Option<(string, string)>
    decreases |s|
  {
    if |s| == 0 || s[0] == ' ' then Some(("", s))
    else if s[0] == '\\' then (if |s| < 2 || s[1] == '\n' then None else Cons(s[1], ReadWord(s[2..])))
    else if s[0] == '$' && |s| > 1 && s[1] == '\'' then ReadDollar(s[2..])
    else if Bare(s[0]) then Cons(s[0], ReadWord(s[1..]))
    else None
  }

  lemma {:induction false} ReadDollarShortens(s: string)
    ensures ReadDollar(s).Some? ==> |ReadDollar(s).value.1| < |s|
    decreases |s|
  {
    if |s| > 0 {
      if s[0] == '\'' {
        ReadWordShortens(s[1..]);
      } else if s[0] != '\\' {
        ReadDollarShortens(s[1..]);
      } else if |s| >= 2 {
        ReadDollarShortens(s[2..]);
        if |s| >= 4 {
          ReadDollarShortens(s[4..]);
        }
      }
    }
  }

  lemma {:induction false} ReadWordShortens(s: string)
    ensures ReadWord(s).Some? ==> |ReadWord(s).value.1| <= |s| && (|s| > 0 && s[0] != ' ' ==> |ReadWord(s).value.1| < |s|)
    decreases |s|
  {
    if |s| > 0 && s[0] != ' ' {
      if s[0] == '\\' {
        if |s| >= 2 { ReadWordShortens(s[2..]); }
      } else if s[0] == '$' && |s| > 1 && s[1] == '\'' {
        ReadDollarShortens(s[2..]);
      } else {
        ReadWordShortens(s[1..]);
      }
    }
  }

  /** The words of a line, spaces apart. */
  function Words(s: string): Option<seq<string>>
    decreases |s|
  {
    if |s| == 0 then Some([])
    else if s[0] == ' ' then Words(s[1..])
    else
      ReadWordShortens(s);
      var w := ReadWord(s);
      if w.None? then None
      else
        var more := Words(w.value.1);
        if more.None? then None else Some([w.value.0] + more.value)
  }

  // ---------- The chain is one map ----------

  /** What each character becomes. */
  function Escaped(c: char): string {
    if c == '\\' then "\\\\"
    else if c == '\'' then "\\'"
    else if c == '\n' then "\\n"
    else if c == '\r' then "\\r"
    else if c == '\t' then "\\t"
    else OctalEscape(c)
  }

  lemma {:induction false} EachConcat(a: string, b: string, f: char -> string)
    ensures Each(a + b, f) == Each(a, f) + Each(b, f)
  {
    if |a| == 0 {
      assert a + b == b;
    } else {
      assert (a + b)[1..] == a[1..] + b;
      EachConcat(a[1..], b, f);
      assert f(a[0]) + (Each(a[1..], f) + Each(b, f)) == (f(a[0]) + Each(a[1..], f)) + Each(b, f);
    }
  }

  lemma EachOne(c: char, f: char -> string)
    ensures Each([c], f) == f(c)
  {
    assert [c][1..] == "";
    assert f(c) + "" == f(c);
  }

  lemma EachTwo(c: char, d: char, f: char -> string)
    ensures Each([c, d], f) == f(c) + f(d)
  {
    assert [c, d] == [c] + [d];
    EachConcat([c], [d], f);
    EachOne(c, f);
    EachOne(d, f);
  }

  /** A replacement leaves a backslash and the letter after it alone, except the first, which has none yet. */
  lemma PairStays(d: char, from: char, with: string)
    requires from != '\\' && d != from
    ensures Each(['\\', d], Swap(from, with)) == ['\\', d]
  {
    EachTwo('\\', d, Swap(from, with));
  }

  lemma ChainedOne(c: char)
    ensures Chained([c]) == Escaped(c)
  {
    var q, n, r, t := Swap('\'', "\\'"), Swap('\n', "\\n"), Swap('\r', "\\r"), Swap('\t', "\\t");
    EachOne(c, Swap('\\', "\\\\"));
    if c == '\\' {
      PairStays('\\', '\'', "\\'");
      PairStays('\\', '\n', "\\n");
      PairStays('\\', '\r', "\\r");
      PairStays('\\', '\t', "\\t");
      EachTwo('\\', '\\', OctalEscape);
    } else {
      EachOne(c, q);
      if c == '\'' {
        PairStays('\'', '\n', "\\n");
        PairStays('\'', '\r', "\\r");
        PairStays('\'', '\t', "\\t");
        EachTwo('\\', '\'', OctalEscape);
      } else {
        EachOne(c, n);
        if c == '\n' {
          PairStays('n', '\r', "\\r");
          PairStays('n', '\t', "\\t");
          EachTwo('\\', 'n', OctalEscape);
        } else {
          EachOne(c, r);
          if c == '\r' {
            PairStays('r', '\t', "\\t");
            EachTwo('\\', 'r', OctalEscape);
          } else {
            EachOne(c, t);
            if c == '\t' {
              EachTwo('\\', 't', OctalEscape);
            } else {
              EachOne(c, OctalEscape);
            }
          }
        }
      }
    }
  }

  lemma ChainedConcat(a: string, b: string)
    ensures Chained(a + b) == Chained(a) + Chained(b)
  {
    var s, q, n, r, t := Swap('\\', "\\\\"), Swap('\'', "\\'"), Swap('\n', "\\n"), Swap('\r', "\\r"), Swap('\t', "\\t");
    var a1, b1 := Each(a, s), Each(b, s);
    var a2, b2 := Each(a1, q), Each(b1, q);
    var a3, b3 := Each(a2, n), Each(b2, n);
    var a4, b4 := Each(a3, r), Each(b3, r);
    EachConcat(a, b, s);
    EachConcat(a1, b1, q);
    EachConcat(a2, b2, n);
    EachConcat(a3, b3, r);
    EachConcat(a4, b4, t);
    EachConcat(Each(a4, t), Each(b4, t), OctalEscape);
  }

  /** The chained replacements are one per-character map. */
  lemma {:induction false} ChainIsOneMap(path: string)
    ensures Chained(path) == Each(path, Escaped)
  {
    if |path| == 0 {
      assert Chained("") == "";
    } else {
      ChainedConcat([path[0]], path[1..]);
      assert path == [path[0]] + path[1..];
      ChainedOne(path[0]);
      ChainIsOneMap(path[1..]);
    }
  }

  // ---------- No control character goes out ----------

  predicate Printable(s: string) {
    forall i :: 0 <= i < |s| ==> !Control(s[i])
  }

  lemma {:induction false} EachPrintable(s: string, f: char -> string)
    requires forall c :: c in s ==> Printable(f(c))
    ensures Printable(Each(s, f))
  {
    if |s| != 0 {
      EachPrintable(s[1..], f);
    }
  }

  lemma EscapedPrintable(c: char)
    ensures Printable(Escaped(c))
  {
  }

  /** In particular no CR or LF submits the message half-way, and no ESC ends the paste. */
  lemma EscapePathIsPrintable(path: string)
    ensures Printable(EscapePath(path))
  {
    if HasControl(path) {
      forall c | c in path ensures Printable(Escaped(c)) {
        EscapedPrintable(c);
      }
      EachPrintable(path, Escaped);
      ChainIsOneMap(path);
    } else {
      forall c | c in path ensures Printable(BackslashEscape(c)) {
        var i :| 0 <= i < |path| && path[i] == c;
        assert !Control(path[i]);
      }
      EachPrintable(path, BackslashEscape);
    }
  }

  lemma {:induction false} PasteBodyIsPrintable(paths: seq<string>)
    ensures Printable(Joined(paths)) && Printable(PasteBody(paths))
  {
    if |paths| > 0 {
      EscapePathIsPrintable(paths[0]);
      PasteBodyIsPrintable(paths[1..]);
    }
  }

  /** Whatever the paths hold, one paste goes out: its only escapes begin the two markers, and nothing in it submits. */
  lemma OnePaste(paths: seq<string>)
    ensures var p := PastePaths(paths);
            && (forall i :: 0 <= i < |p| && p[i] == ESC ==> i == 0 || i == |p| - 6)
            && '\n' !in p && '\r' !in p
  {
    PasteBodyIsPrintable(paths);
    var p, body := PastePaths(paths), PasteBody(paths);
    forall i | 6 <= i < 6 + |body| ensures !Control(p[i]) {
      assert p[i] == body[i - 6];
    }
  }

  // ---------- Read back ----------

  predicate EndsWord(rest: string) {
    |rest| == 0 || rest[0] == ' '
  }

  lemma BackslashReads(c: char, more: string)
    requires !Control(c)
    ensures ReadWord(BackslashEscape(c) + more) == Cons(c, ReadWord(more))
  {
    var e := BackslashEscape(c);
    assert (e + more)[|e|..] == more;
  }

  lemma NoControlLeft(path: string)
    requires |path| > 0 && !HasControl(path)
    ensures !Control(path[0]) && !HasControl(path[1..])
  {
    forall i | 0 <= i < |path[1..]| ensures !Control(path[1..][i]) {
      assert !Control(path[i + 1]);
    }
  }

  lemma {:induction false} ReadBackslashed(path: string, rest: string)
    requires !HasControl(path) && EndsWord(rest)
    ensures ReadWord(Each(path, BackslashEscape) + rest) == Some((path, rest))
  {
    hide BackslashEscape, HasControl;
    if |path| == 0 {
      assert "" + rest == rest && path == "";
    } else {
      var more := Each(path[1..], BackslashEscape) + rest;
      NoControlLeft(path);
      ReadBackslashed(path[1..], rest);
      BackslashReads(path[0], more);
      assert Each(path, BackslashEscape) + rest == BackslashEscape(path[0]) + more;
      assert [path[0]] + path[1..] == path;
    }
  }

  lemma OctalReads(c: char, more: string)
    requires Control(c) && c != 0 as char
    ensures ReadDollar("\\" + Octal(c) + more) == Cons(c, ReadDollar(more))
  {
    var s, n := "\\" + Octal(c) + more, c as int;
    assert s[1] == Digit(n / 64) && s[2] == Digit(n / 8 % 8) && s[3] == Digit(n % 8);
    assert n / 64 * 64 + n / 8 % 8 * 8 + n % 8 == n;
    assert s[4..] == more;
  }

  /** Each escape is read as its character. */
  lemma EscapeReads(c: char, more: string)
    requires c != 0 as char
    ensures ReadDollar(Escaped(c) + more) == Cons(c, ReadDollar(more))
  {
    var s := Escaped(c) + more;
    if Control(c) && c != '\n' && c != '\r' && c != '\t' {
      OctalReads(c, more);
    } else if |Escaped(c)| == 1 {
      assert s[1..] == more;
    } else {
      assert s[2..] == more;
    }
  }

  predicate NulFree(path: string) {
    forall i :: 0 <= i < |path| ==> path[i] != 0 as char
  }

  lemma QuoteEnds(rest: string)
    requires EndsWord(rest)
    ensures ReadDollar("'" + rest) == Some(("", rest))
  {
    assert ("'" + rest)[1..] == rest;
  }

  lemma {:induction false} ReadDollared(path: string, rest: string)
    requires NulFree(path) && EndsWord(rest)
    ensures ReadDollar(Each(path, Escaped) + ("'" + rest)) == Some((path, rest))
  {
    hide Escaped, ReadDollar, ReadWord;
    if |path| == 0 {
      QuoteEnds(rest);
      assert Each(path, Escaped) + ("'" + rest) == "'" + rest;
    } else {
      var more := Each(path[1..], Escaped) + ("'" + rest);
      ReadDollared(path[1..], rest);
      EscapeReads(path[0], more);
      assert Each(path, Escaped) + ("'" + rest) == Escaped(path[0]) + more;
      assert [path[0]] + path[1..] == path;
    }
  }

  lemma DollarWord(path: string, rest: string)
    requires NulFree(path) && EndsWord(rest)
    ensures ReadWord(("$'" + Chained(path) + "'") + rest) == Some((path, rest))
  {
    hide Escaped, ReadDollar, Chained;
    ChainIsOneMap(path);
    ReadDollared(path, rest);
    var s := ("$'" + Chained(path) + "'") + rest;
    assert s[0] == '$' && s[1] == '\'';
    assert s[2..] == Each(path, Escaped) + ("'" + rest);
  }

  /** A shell reads what was printed as the path itself, for every path: no byte of it is acted on. */
  lemma ReadBack(path: string, rest: string)
    requires NulFree(path) && EndsWord(rest)
    ensures ReadWord(EscapePath(path) + rest) == Some((path, rest))
  {
    if HasControl(path) {
      DollarWord(path, rest);
    } else {
      ReadBackslashed(path, rest);
    }
  }

  function NonEmpty(paths: seq<string>): seq<string> {
    if |paths| == 0 then [] else (if paths[0] == "" then [] else [paths[0]]) + NonEmpty(paths[1..])
  }

  lemma EscapeNotEmpty(path: string)
    ensures |EscapePath(path)| == 0 <==> path == ""
    ensures path != "" ==> EscapePath(path)[0] != ' '
  {
    if HasControl(path) {
      assert EscapePath(path)[0] == '$';
    } else if path != "" {
      assert Each(path, BackslashEscape)[0] == BackslashEscape(path[0])[0];
    }
  }

  /** The next path is the next word. */
  lemma WordsStep(path: string, rest: string)
    requires NulFree(path) && EndsWord(rest) && Words(rest).Some?
    ensures Words(EscapePath(path) + rest) == Some((if path == "" then [] else [path]) + Words(rest).value)
  {
    EscapeNotEmpty(path);
    if path == "" {
      assert EscapePath(path) + rest == rest && [] + Words(rest).value == Words(rest).value;
    } else {
      ReadBack(path, rest);
      assert (EscapePath(path) + rest)[0] == EscapePath(path)[0];
    }
  }

  /** A paste's words are its paths, but for empty ones. */
  lemma {:induction false} PasteSplitsIntoPaths(paths: seq<string>)
    requires forall i :: 0 <= i < |paths| ==> NulFree(paths[i])
    ensures Words(PasteBody(paths)) == Some(NonEmpty(paths))
  {
    hide EscapePath, ReadWord;
    var end := " ";
    assert end[1..] == "";
    if |paths| == 0 {
      assert PasteBody(paths) == end;
    } else if |paths| == 1 {
      WordsStep(paths[0], end);
      assert NonEmpty(paths[1..]) == [];
    } else {
      PasteSplitsIntoPaths(paths[1..]);
      var rest := " " + PasteBody(paths[1..]);
      assert rest[1..] == PasteBody(paths[1..]);
      assert PasteBody(paths) == EscapePath(paths[0]) + rest;
      WordsStep(paths[0], rest);
    }
  }
}
