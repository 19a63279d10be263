/** The secrets file: how it is printed, how it is read back, and what a shell makes of it. */
module Secrets {
  import opened Wrappers

  const KEYS_HEADER := "# keys: "
  const PROJECT_HEADER := "# mulpex-project: "

  datatype Row = Row(key: string, value: string)

  // ---------- Text ----------

  /** Unicode's White_Space. */
  predicate Space(c: char) {
    || 9 as char <= c <= 13 as char || c == ' ' || c == 0x85 as char || c == 0xA0 as char || c == 0x1680 as char
    || 0x2000 as char <= c <= 0x200A as char || c == 0x2028 as char || c == 0x2029 as char || c == 0x202F as char
    || c == 0x205F as char || c == 0x3000 as char
  }

  function TrimStart(s: string): string {
    if |s| > 0 && Space(s[0]) then TrimStart(s[1..]) else s
  }

  function TrimEnd(s: string): string {
    if |s| > 0 && Space(s[|s| - 1]) then TrimEnd(s[..|s| - 1]) else s
  }

  function Trim(s: string): string {
    TrimEnd(TrimStart(s))
  }

  predicate Letter(c: char) {
    c == '_' || 'a' <= c <= 'z' || 'A' <= c <= 'Z'
  }

  predicate NameChar(c: char) {
    Letter(c) || '0' <= c <= '9'
  }

  /** A shell identifier. */
  predicate ValidKey(k: string) {
    |k| > 0 && Letter(k[0]) && forall i :: 0 <= i < |k| ==> NameChar(k[i])
  }

  // ---------- Printing ----------

  /** `'` is written `'\''`; everything else as it is. */
  function Quoted(v: string): string {
    if |v| == 0 then ""
    else if v[0] == '\'' then "'\\''" + Quoted(v[1..])
    else [v[0]] + Quoted(v[1..])
  }

  function Line(r: Row): string {
    r.key + ("='" + (Quoted(r.value) + "'\n"))
  }

  function Lines(rows: seq<Row>): string {
    if |rows| == 0 then "" else Lines(rows[..|rows| - 1]) + Line(rows[|rows| - 1])
  }

  function Trimmed(rows: seq<Row>): (r: seq<Row>)
    ensures |r| == |rows| && forall i :: 0 <= i < |rows| ==> r[i] == Row(Trim(rows[i].key), rows[i].value)
  {
    seq(|rows|, i requires 0 <= i < |rows| => Row(Trim(rows[i].key), rows[i].value))
  }

  function Keys(rows: seq<Row>): (r: seq<string>)
    ensures |r| == |rows| && forall i :: 0 <= i < |rows| ==> r[i] == rows[i].key
  {
    seq(|rows|, i requires 0 <= i < |rows| => rows[i].key)
  }

  function Join(words: seq<string>): string {
    if |words| == 0 then "" else if |words| == 1 then words[0] else Join(words[..|words| - 1]) + " " + words[|words| - 1]
  }

  datatype Refusal = NoRows | NotAName(key: string) | Twice(key: string)

  /** The first row that cannot be written. */
  function Fault(rows: seq<Row>): Option<Refusal> {
    if |rows| == 0 then None
    else
      var n := |rows| - 1;
      var before := Fault(rows[..n]);
      if before.Some? then before
      else if !ValidKey(rows[n].key) then Some(NotAName(rows[n].key))
      else if rows[n].key in Keys(rows[..n]) then Some(Twice(rows[n].key))
      else None
  }

  function Tag(project: Option<string>): string {
    if project.Some? then PROJECT_HEADER + project.value + "\n" else ""
  }

  function Rendered(rows: seq<Row>, project: Option<string>): Result<string, Refusal> {
    var t := Trimmed(rows);
    if |rows| == 0 then Failure(NoRows)
    else if Fault(t).Some? then Failure(Fault(t).value)
    else Success((KEYS_HEADER + (Join(Keys(t)) + "\n")) + (Tag(project) + Lines(t)))
  }

  /** What `render` accepts: at least one row, every trimmed name a shell identifier, none twice. */
  ghost predicate Acceptable(rows: seq<Row>) {
    && (forall i :: 0 <= i < |rows| ==> ValidKey(rows[i].key))
    && (forall i, j :: 0 <= i < j < |rows| ==> rows[i].key != rows[j].key)
  }

  lemma {:induction false} FaultMeans(rows: seq<Row>)
    ensures Fault(rows).None? <==> Acceptable(rows)
  {
    if |rows| != 0 {
      var n := |rows| - 1;
      FaultMeans(rows[..n]);
      if Acceptable(rows) {
        assert forall i :: 0 <= i < n ==> rows[..n][i] == rows[i];
      }
      if Fault(rows).None? {
        forall i, j | 0 <= i < j < |rows| ensures rows[i].key != rows[j].key {
          assert rows[..n][i] == rows[i];
          if j < n {
            assert rows[..n][j] == rows[j];
          } else {
            assert Keys(rows[..n])[i] == rows[i].key;
          }
        }
        forall i | 0 <= i < |rows| ensures ValidKey(rows[i].key) {
          if i < n { assert rows[..n][i] == rows[i]; }
        }
      }
    }
  }

  lemma RenderAccepts(rows: seq<Row>, project: Option<string>)
    ensures Rendered(rows, project).Success? <==> |rows| > 0 && Acceptable(Trimmed(rows))
  {
    FaultMeans(Trimmed(rows));
  }

  // ---------- Reading back ----------

  datatype ReadError = NotOurs | BadName(key: string) | Unterminated

  function FindChar(s: string, c: char): Option<nat> {
    if |s| == 0 then None
    else if s[0] == c then Some(0)
    else
      var r := FindChar(s[1..], c);
      if r.Some? then Some(r.value + 1) else None
  }

  /** Where `='` first stands. */
  function FindAssign(s: string): Option<nat> {
    if |s| < 2 then None
    else if s[0] == '=' && s[1] == '\'' then Some(0)
    else
      var r := FindAssign(s[1..]);
      if r.Some? then Some(r.value + 1) else None
  }

  lemma FindCharInside(s: string, c: char)
    ensures FindChar(s, c).Some? ==> FindChar(s, c).value < |s| && s[FindChar(s, c).value] == c
  {
  }

  lemma FindAssignInside(s: string)
    ensures FindAssign(s).Some? ==> FindAssign(s).value + 2 <= |s|
  {
  }

  /** What follows the first newline; nothing if there is none. */
  function AfterLine(s: string): (r: string)
    ensures |s| > 0 ==> |r| < |s|
  {
    FindCharInside(s, '\n');
    var n := FindChar(s, '\n');
    if n.Some? then s[n.value + 1..] else ""
  }

  /** A quoted value up to its closing quote, and what follows. */
  function ReadValue(tail: string): (r: Option<(string, string)>)
    ensures r.Some? ==> |r.value.1| < |tail|
    decreases |tail|
  {
    FindCharInside(tail, '\'');
    var end := FindChar(tail, '\'');
    if end.None? then None
    else
      var t := tail[end.value + 1..];
      if "\\''" <= t then
        var more := ReadValue(t[3..]);
        if more.None? then None else Some((tail[..end.value] + "'" + more.value.0, more.value.1))
      else Some((tail[..end.value], t))
  }

  function Onto(rows: seq<Row>, r: Result<seq<Row>, ReadError>): Result<seq<Row>, ReadError> {
    if r.Success? then Success(rows + r.value) else r
  }

  function Parsed(rest: string): Result<seq<Row>, ReadError>
    decreases |rest|
  {
    if |rest| == 0 then Success([])
    else if rest[0] == '#' || rest[0] == '\n' then Parsed(AfterLine(rest))
    else
      FindAssignInside(rest);
      var at := FindAssign(rest);
      if at.None? then Failure(NotOurs)
      else if !ValidKey(rest[..at.value]) then Failure(BadName(rest[..at.value]))
      else
        var v := ReadValue(rest[at.value + 2..]);
        if v.None? then Failure(Unterminated)
        else Onto([Row(rest[..at.value], v.value.0)], Parsed(if "\n" <= v.value.1 then v.value.1[1..] else v.value.1))
  }

  // ---------- A shell ----------

  /** Characters a shell acts on when they are not quoted (POSIX Shell Command Language, section 2.2). */
  predicate Acted(c: char) {
    c in "|&;<>()$`\"*?[#~=% \t"
  }

  function ConsTo(c: char, r: Option<(string, string)>): Option<(string, string)> {
    if r.Some? then Some(([c] + r.value.0, r.value.1)) else None
  }

  /**
   A word up to its line's end. Within single quotes every character is literal (section 2.2.2); outside, a backslash
   makes the next one literal (section 2.2.1). None for what else a shell would do.
  */
  function ShellWord(s: string, quoted: bool): (r: Option<(string, string)>)
    ensures r.Some? ==> |r.value.1| <= |s|
    decreases |s|
  {
    if quoted then
      if |s| == 0 then None
      else if s[0] == '\'' then ShellWord(s[1..], false)
      else ConsTo(s[0], ShellWord(s[1..], true))
    else if |s| == 0 then Some(("", ""))
    else if s[0] == '\n' then Some(("", s[1..]))
    else if s[0] == '\'' then ShellWord(s[1..], true)
    else if s[0] == '\\' then (if |s| < 2 || s[1] == '\n' then None else ConsTo(s[1], ShellWord(s[2..], false)))
    else if Acted(s[0]) then None
    else ConsTo(s[0], ShellWord(s[1..], false))
  }

  /** The assignments a shell makes when it reads the file, in order; None if it would do anything else. */
  function Sourced(s: string): Option<seq<Row>>
    decreases |s|
  {
    if |s| == 0 then Some([])
    else if s[0] == '#' || s[0] == '\n' then Sourced(AfterLine(s))
    else
      FindCharInside(s, '=');
      var eq := FindChar(s, '=');
      if eq.None? || !ValidKey(s[..eq.value]) then None
      else
        var w := ShellWord(s[eq.value + 1..], false);
        if w.None? then None
        else
          var more := Sourced(w.value.1);
          if more.None? then None else Some([Row(s[..eq.value], w.value.0)] + more.value)
  }

  // ---------- Values ----------

  lemma FindCharSkips(c: char, s: string, q: char)
    requires c != q
    ensures FindChar([c] + s, q) == (if FindChar(s, q).Some? then Some(FindChar(s, q).value + 1) else None)
  {
    assert ([c] + s)[1..] == s;
  }

  lemma SlicesBehind(c: char, s: string, e: nat)
    requires e < |s|
    ensures ([c] + s)[e + 2..] == s[e + 1..] && ([c] + s)[..e + 1] == [c] + s[..e]
  {
  }

  /** A character that is not a quote is the value's next. */
  lemma ValueTakes(c: char, s: string)
    requires c != '\'' && ReadValue(s).Some?
    ensures ReadValue([c] + s) == Some(([c] + ReadValue(s).value.0, ReadValue(s).value.1))
  {
    hide ReadValue, FindChar;
    FindCharSkips(c, s, '\'');
    ValueHasQuote(s);
    var e := FindChar(s, '\'').value;
    ReadValueAt(s, e);
    ReadValueAt([c] + s, e + 1);
    SlicesBehind(c, s, e);
    if "\\''" <= s[e + 1..] {
      var more := ReadValue(s[e + 1..][3..]);
      assert ([c] + s[..e]) + "'" + more.value.0 == [c] + (s[..e] + "'" + more.value.0);
    }
  }

  lemma ValueHasQuote(s: string)
    requires ReadValue(s).Some?
    ensures FindChar(s, '\'').Some?
  {
  }

  lemma ReadValueAt(s: string, e: nat)
    requires FindChar(s, '\'') == Some(e)
    ensures e < |s|
    ensures var t := s[e + 1..];
            ReadValue(s) ==
              (if "\\''" <= t then
                 (if ReadValue(t[3..]).None? then None else Some((s[..e] + "'" + ReadValue(t[3..]).value.0, ReadValue(t[3..]).value.1)))
               else Some((s[..e], t)))
  {
    hide FindChar;
    FindCharInside(s, '\'');
  }

  /** What is behind a written quote's closing quote, and behind all of it. */
  lemma QuoteSlices(s: string)
    ensures FindChar("'\\''" + s, '\'') == Some(0) && ("'\\''" + s)[..0] == ""
    ensures "\\''" <= ("'\\''" + s)[1..] && ("'\\''" + s)[1..][3..] == s
  {
    assert ("'\\''" + s)[0] == '\'' && ("'\\''" + s)[1..] == "\\''" + s;
  }

  /** A written quote is the value's next. */
  lemma ValueTakesQuote(s: string)
    requires ReadValue(s).Some?
    ensures ReadValue("'\\''" + s) == Some(("'" + ReadValue(s).value.0, ReadValue(s).value.1))
  {
    hide ReadValue, FindChar;
    QuoteSlices(s);
    ReadValueAt("'\\''" + s, 0);
    assert "" + "'" + ReadValue(s).value.0 == "'" + ReadValue(s).value.0;
  }

  lemma ValueEnds(rest: string)
    ensures ReadValue("'\n" + rest) == Some(("", "\n" + rest))
  {
    var t := "'\n" + rest;
    assert t[1..] == "\n" + rest && FindChar(t, '\'') == Some(0) && t[..0] == "";
    assert ("\n" + rest)[0] == '\n';
  }

  lemma QuotedFirst(v: string, tail: string)
    requires |v| > 0
    ensures Quoted(v) + tail ==
            (if v[0] == '\'' then "'\\''" + (Quoted(v[1..]) + tail) else [v[0]] + (Quoted(v[1..]) + tail))
  {
  }

  /** A written value is read back whole, quotes and newlines included. */
  lemma {:induction false} ValueBack(v: string, rest: string)
    ensures ReadValue(Quoted(v) + ("'\n" + rest)) == Some((v, "\n" + rest))
  {
    hide Quoted, ReadValue;
    if |v| == 0 {
      EmptyQuoted(v);
      ValueEnds(rest);
      assert "" + ("'\n" + rest) == "'\n" + rest;
    } else {
      ValueBack(v[1..], rest);
      QuotedFirst(v, "'\n" + rest);
      var more := Quoted(v[1..]) + ("'\n" + rest);
      if v[0] == '\'' {
        ValueTakesQuote(more);
        assert v == "'" + v[1..];
      } else {
        ValueTakes(v[0], more);
        assert v == [v[0]] + v[1..];
      }
    }
  }

  lemma EmptyQuoted(v: string)
    requires |v| == 0
    ensures Quoted(v) == "" && v == ""
  {
  }

  /** To a shell it is the value, literally. */
  lemma {:induction false} ShellValue(v: string, rest: string)
    ensures ShellWord(Quoted(v) + ("'\n" + rest), true) == Some((v, rest))
  {
    hide Quoted;
    if |v| == 0 {
      EmptyQuoted(v);
      var t := "'\n" + rest;
      assert Quoted(v) + t == t && t[1..] == "\n" + rest && ("\n" + rest)[1..] == rest;
    } else {
      ShellValue(v[1..], rest);
      QuotedFirst(v, "'\n" + rest);
      var more := Quoted(v[1..]) + ("'\n" + rest);
      if v[0] == '\'' {
        ShellQuote(more);
        assert v == "'" + v[1..];
      } else {
        assert ([v[0]] + more)[1..] == more;
        assert v == [v[0]] + v[1..];
      }
    }
  }

  /** Out of the quotes, an escaped quote, and in again. */
  lemma ShellQuote(s: string)
    ensures ShellWord("'\\''" + s, true) == ConsTo('\'', ShellWord(s, true))
  {
    var t := "'\\''" + s;
    assert t[1..] == "\\''" + s;
    assert ("\\''" + s)[2..] == "'" + s;
    assert ("'" + s)[1..] == s;
    assert ShellWord("'" + s, false) == ShellWord(s, true);
    assert ShellWord("\\''" + s, false) == ConsTo('\'', ShellWord("'" + s, false));
  }

  // ---------- Lines ----------

  lemma {:induction false} NoEquals(k: string, tail: string)
    requires forall i :: 0 <= i < |k| ==> NameChar(k[i])
    ensures FindAssign(k + ("='" + tail)) == Some(|k|) && FindChar(k + ("='" + tail), '=') == Some(|k|)
  {
    if |k| == 0 {
      assert k + ("='" + tail) == "='" + tail;
    } else {
      assert (k + ("='" + tail))[1..] == k[1..] + ("='" + tail);
      NoEquals(k[1..], tail);
      assert NameChar(k[0]);
    }
  }

  lemma LineParts(r: Row, rest: string)
    ensures Line(r) + rest == r.key + ("='" + (Quoted(r.value) + ("'\n" + rest)))
  {
  }

  lemma KeyParts(k: string, tail: string)
    ensures (k + ("='" + tail))[..|k|] == k && (k + ("='" + tail))[|k| + 2..] == tail
    ensures (k + ("='" + tail))[|k| + 1..] == "'" + tail
  {
  }

  /** A written line is read back as its row. */
  lemma LineBack(r: Row, rest: string)
    requires ValidKey(r.key)
    ensures Parsed(Line(r) + rest) == Onto([r], Parsed(rest))
  {
    var tail := Quoted(r.value) + ("'\n" + rest);
    LineParts(r, rest);
    LineRead(r, tail, rest);
  }

  lemma LineRead(r: Row, tail: string, rest: string)
    requires ValidKey(r.key) && tail == Quoted(r.value) + ("'\n" + rest)
    ensures Parsed(r.key + ("='" + tail)) == Onto([r], Parsed(rest))
  {
    hide ReadValue, FindAssign, Quoted;
    var s := r.key + ("='" + tail);
    assert s[0] == r.key[0] && Letter(s[0]);
    NoEquals(r.key, tail);
    KeyParts(r.key, tail);
    ValueBack(r.value, rest);
    assert ("\n" + rest)[1..] == rest && "\n" <= "\n" + rest;
  }

  /** And assigned by a shell as its row. */
  lemma LineSourced(r: Row, rest: string)
    requires ValidKey(r.key) && Sourced(rest).Some?
    ensures Sourced(Line(r) + rest) == Some([r] + Sourced(rest).value)
  {
    hide Quoted;
    var tail := Quoted(r.value) + ("'\n" + rest);
    LineParts(r, rest);
    var s := r.key + ("='" + tail);
    assert s[0] == r.key[0] && Letter(s[0]);
    NoEquals(r.key, tail);
    KeyParts(r.key, tail);
    ShellValue(r.value, rest);
    assert ("'" + tail)[1..] == tail;
  }

  lemma {:induction false} LinesBack(rows: seq<Row>, rest: string)
    requires forall i :: 0 <= i < |rows| ==> ValidKey(rows[i].key)
    ensures Parsed(Lines(rows) + rest) == Onto(rows, Parsed(rest))
    decreases |rows|
  {
    hide Line, Parsed;
    if |rows| == 0 {
      assert Lines(rows) + rest == rest;
      if Parsed(rest).Success? {
        assert rows + Parsed(rest).value == Parsed(rest).value;
      }
    } else {
      var n := |rows| - 1;
      assert Lines(rows) + rest == Lines(rows[..n]) + (Line(rows[n]) + rest);
      LinesBack(rows[..n], Line(rows[n]) + rest);
      LineBack(rows[n], rest);
      assert rows == rows[..n] + [rows[n]];
      if Parsed(rest).Success? {
        assert rows[..n] + ([rows[n]] + Parsed(rest).value) == rows + Parsed(rest).value;
      }
    }
  }

  lemma {:induction false} LinesSourced(rows: seq<Row>, rest: string)
    requires forall i :: 0 <= i < |rows| ==> ValidKey(rows[i].key)
    requires Sourced(rest).Some?
    ensures Sourced(Lines(rows) + rest) == Some(rows + Sourced(rest).value)
    decreases |rows|
  {
    hide Line, Sourced;
    if |rows| == 0 {
      assert Lines(rows) + rest == rest;
      assert rows + Sourced(rest).value == Sourced(rest).value;
    } else {
      var n := |rows| - 1;
      assert Lines(rows) + rest == Lines(rows[..n]) + (Line(rows[n]) + rest);
      LineSourced(rows[n], rest);
      LinesSourced(rows[..n], Line(rows[n]) + rest);
      assert rows[..n] + ([rows[n]] + Sourced(rest).value) == rows + Sourced(rest).value;
    }
  }

  // ---------- Headers ----------

  predicate OneLine(s: string) {
    forall i :: 0 <= i < |s| ==> s[i] != '\n'
  }

  lemma {:induction false} LineEnd(s: string, rest: string)
    requires OneLine(s)
    ensures FindChar(s + ("\n" + rest), '\n') == Some(|s|)
    ensures (s + ("\n" + rest))[..|s|] == s && (s + ("\n" + rest))[|s| + 1..] == rest
  {
    if |s| == 0 {
      assert s + ("\n" + rest) == "\n" + rest;
    } else {
      assert (s + ("\n" + rest))[1..] == s[1..] + ("\n" + rest);
      LineEnd(s[1..], rest);
    }
  }

  lemma CommentSkipped(s: string, rest: string)
    requires OneLine(s) && |s| > 0 && s[0] == '#'
    ensures Parsed(s + ("\n" + rest)) == Parsed(rest) && Sourced(s + ("\n" + rest)) == Sourced(rest)
  {
    LineEnd(s, rest);
    assert (s + ("\n" + rest))[0] == '#';
  }

  lemma {:induction false} JoinOneLine(words: seq<string>)
    requires forall i :: 0 <= i < |words| ==> OneLine(words[i])
    ensures OneLine(Join(words))
    decreases |words|
  {
    if |words| > 1 {
      JoinOneLine(words[..|words| - 1]);
    }
  }

  lemma KeyOneLine(k: string)
    requires ValidKey(k)
    ensures OneLine(k)
  {
    forall i | 0 <= i < |k| ensures k[i] != '\n' {
      assert NameChar(k[i]);
    }
  }

  function KeysLine(rows: seq<Row>): string {
    KEYS_HEADER + Join(Keys(rows))
  }

  lemma KeysOneLine(rows: seq<Row>)
    requires forall i :: 0 <= i < |rows| ==> ValidKey(rows[i].key)
    ensures OneLine(KeysLine(rows)) && OneLine(Join(Keys(rows)))
  {
    forall i | 0 <= i < |rows| ensures OneLine(Keys(rows)[i]) {
      KeyOneLine(rows[i].key);
    }
    JoinOneLine(Keys(rows));
  }

  /** The body, its header line apart. */
  lemma BodyParts(rows: seq<Row>, project: Option<string>)
    requires Rendered(rows, project).Success?
    ensures Rendered(rows, project).value == KeysLine(Trimmed(rows)) + ("\n" + (Tag(project) + Lines(Trimmed(rows))))
  {
    var t := Trimmed(rows);
    var j, l := Join(Keys(t)), Tag(project) + Lines(t);
    assert (KEYS_HEADER + (j + "\n")) + l == (KEYS_HEADER + j) + ("\n" + l);
  }

  lemma ProjectSkipped(project: Option<string>, rest: string)
    requires project.Some? ==> OneLine(project.value)
    ensures Parsed(Tag(project) + rest) == Parsed(rest) && Sourced(Tag(project) + rest) == Sourced(rest)
  {
    if project.Some? {
      var line := PROJECT_HEADER + project.value;
      CommentSkipped(line, rest);
      assert Tag(project) + rest == line + ("\n" + rest);
    } else {
      assert Tag(project) + rest == rest;
    }
  }

  lemma NothingLeft()
    ensures Parsed("") == Success([]) && Sourced("") == Some([])
  {
  }

  // ---------- The headers ----------

  /** A text's first line, without its `\n` or `\r\n`, and what follows; a `\r` no `\n` follows stays. */
  function FirstLine(s: string): (string, string) {
    FindCharInside(s, '\n');
    var n := FindChar(s, '\n');
    if n.None? then (s, "")
    else
      var line := s[..n.value];
      (if |line| > 0 && line[|line| - 1] == '\r' then line[..|line| - 1] else line, s[n.value + 1..])
  }

  function SplitSpace(s: string, word: string): seq<string> {
    if |s| == 0 then (if |word| == 0 then [] else [word])
    else if Space(s[0]) then (if |word| == 0 then [] else [word]) + SplitSpace(s[1..], "")
    else SplitSpace(s[1..], word + [s[0]])
  }

  /** The two header lines of a saved file: its keys, and the project it is limited to. */
  function Headers(body: string): Option<(seq<string>, Option<string>)> {
    var (first, rest) := FirstLine(body);
    if !(KEYS_HEADER <= first) then None
    else
      var second := FirstLine(rest).0;
      var project := if PROJECT_HEADER <= second then Some(second[|PROJECT_HEADER|..]) else None;
      Some((SplitSpace(first[|KEYS_HEADER|..], ""), project))
  }

  lemma {:induction false} SplitWord(w: string, rest: string, word: string)
    requires forall i :: 0 <= i < |w| ==> !Space(w[i])
    ensures SplitSpace(w + rest, word) == SplitSpace(rest, word + w)
    decreases |w|
  {
    if |w| == 0 {
      assert w + rest == rest && word + w == word;
    } else {
      assert (w + rest)[1..] == w[1..] + rest;
      SplitWord(w[1..], rest, word + [w[0]]);
      assert (word + [w[0]]) + w[1..] == word + w;
    }
  }

  lemma NoSpaceInKey(k: string)
    requires ValidKey(k)
    ensures forall i :: 0 <= i < |k| ==> !Space(k[i])
  {
    forall i | 0 <= i < |k| ensures !Space(k[i]) {
      assert NameChar(k[i]);
    }
  }

  /** Words joined by spaces, with `more` after them, split back into themselves. */
  lemma {:induction false} SplitJoin(words: seq<string>, more: string)
    requires |words| > 0 && (|more| > 0 ==> more[0] == ' ')
    requires forall i :: 0 <= i < |words| ==> ValidKey(words[i])
    ensures SplitSpace(Join(words) + more, "") == words + SplitSpace(more, "")
    decreases |words|
  {
    var n := |words| - 1;
    var w := words[n];
    NoSpaceInKey(w);
    if n == 0 {
      SplitWord(w, more, "");
      SplitMore(w, more);
      assert words == [w] && "" + w == w;
    } else {
      var tail := " " + (w + more);
      assert Join(words) + more == Join(words[..n]) + tail;
      SplitJoin(words[..n], tail);
      assert tail[1..] == w + more;
      SplitWord(w, more, "");
      SplitMore(w, more);
      assert "" + w == w && [] + SplitSpace(w + more, "") == SplitSpace(w + more, "");
      assert words == words[..n] + [w];
      assert words[..n] + ([w] + SplitSpace(more, "")) == words + SplitSpace(more, "");
    }
  }

  lemma SplitMore(w: string, more: string)
    requires |w| > 0 && (|more| > 0 ==> more[0] == ' ')
    ensures SplitSpace(more, w) == [w] + SplitSpace(more, "")
  {
    if |more| > 0 {
      assert [] + SplitSpace(more[1..], "") == SplitSpace(more[1..], "");
    }
  }

  lemma FirstOf(line: string, rest: string)
    requires OneLine(line)
    ensures FirstLine(line + ("\n" + rest)) == (if |line| > 0 && line[|line| - 1] == '\r' then line[..|line| - 1] else line, rest)
  {
    LineEnd(line, rest);
  }

  lemma {:induction false} JoinEnds(words: seq<string>)
    requires |words| > 0 && forall i :: 0 <= i < |words| ==> ValidKey(words[i])
    ensures |Join(words)| > 0 && NameChar(Join(words)[|Join(words)| - 1])
  {
    var w := words[|words| - 1];
    assert NameChar(w[|w| - 1]);
    assert Join(words)[|Join(words)| - 1] == w[|w| - 1];
  }

  /** The keys come back from the header. */
  lemma KeysBack(rows: seq<Row>, rest: string)
    requires |rows| > 0 && forall i :: 0 <= i < |rows| ==> ValidKey(rows[i].key)
    ensures FirstLine(KeysLine(rows) + ("\n" + rest)) == (KeysLine(rows), rest)
    ensures KEYS_HEADER <= KeysLine(rows) && SplitSpace(KeysLine(rows)[|KEYS_HEADER|..], "") == Keys(rows)
  {
    KeysOneLine(rows);
    FirstOf(KeysLine(rows), rest);
    JoinEnds(Keys(rows));
    assert KeysLine(rows)[|KEYS_HEADER|..] == Join(Keys(rows));
    SplitJoin(Keys(rows), "");
    assert Join(Keys(rows)) + "" == Join(Keys(rows)) && Keys(rows) + [] == Keys(rows);
  }

  predicate EndsInCr(p: string) {
    |p| > 0 && p[|p| - 1] == '\r'
  }

  /** The first line of a row is no project header. */
  lemma RowIsNoHeader(rows: seq<Row>)
    requires |rows| > 0 && ValidKey(rows[0].key)
    ensures !(PROJECT_HEADER <= FirstLine(Lines(rows)).0)
  {
    FirstCharOfLines(rows);
    FindCharInside(Lines(rows), '\n');
    assert Letter(Lines(rows)[0]) && PROJECT_HEADER[0] == '#';
  }

  lemma {:induction false} FirstCharOfLines(rows: seq<Row>)
    requires |rows| > 0 && |rows[0].key| > 0
    ensures |Lines(rows)| > 0 && Lines(rows)[0] == rows[0].key[0]
    decreases |rows|
  {
    var n := |rows| - 1;
    if n > 0 {
      FirstCharOfLines(rows[..n]);
    } else {
      assert rows[..n] == [] && Lines(rows) == "" + Line(rows[0]);
    }
  }

  lemma ProjectOnOneLine(p: string, rest: string)
    requires OneLine(p)
    ensures FirstLine(Tag(Some(p)) + rest).0 ==
            (if EndsInCr(p) then PROJECT_HEADER + p[..|p| - 1] else PROJECT_HEADER + p)
  {
    var line := PROJECT_HEADER + p;
    FirstOf(line, rest);
    assert Tag(Some(p)) + rest == line + ("\n" + rest);
    if EndsInCr(p) {
      assert line[..|line| - 1] == PROJECT_HEADER + p[..|p| - 1];
    } else {
      assert line[|line| - 1] == if |p| > 0 then p[|p| - 1] else ' ';
    }
  }

  lemma HeaderOff(p: string)
    ensures PROJECT_HEADER <= PROJECT_HEADER + p && (PROJECT_HEADER + p)[|PROJECT_HEADER|..] == p
  {
  }

  /** The project's line as it is read: up to a newline in it, and without a carriage return at its end. */
  lemma ProjectLine(p: string, rest: string)
    ensures var second := FirstLine(Tag(Some(p)) + rest).0;
            (PROJECT_HEADER <= second && second[|PROJECT_HEADER|..] == p) <==> OneLine(p) && !EndsInCr(p)
  {
    var second := FirstLine(Tag(Some(p)) + rest).0;
    if OneLine(p) {
      ProjectOnOneLine(p, rest);
      if EndsInCr(p) {
        HeaderOff(p[..|p| - 1]);
      } else {
        HeaderOff(p);
      }
    } else {
      var i :| 0 <= i < |p| && p[i] == '\n';
      assert PROJECT_HEADER <= second && second[|PROJECT_HEADER|..] == p ==> second[i + |PROJECT_HEADER|] == '\n';
      FirstLineIsOne(Tag(Some(p)) + rest);
    }
  }

  lemma {:induction false} FindFirst(s: string, c: char)
    ensures var n := FindChar(s, c);
            forall i :: 0 <= i < (if n.Some? then n.value else |s|) && i < |s| ==> s[i] != c
  {
    if |s| > 0 && s[0] != c {
      FindFirst(s[1..], c);
      var n := FindChar(s, c);
      forall i | 0 <= i < (if n.Some? then n.value else |s|) && i < |s| ensures s[i] != c {
        if i > 0 {
          assert s[i] == s[1..][i - 1];
        }
      }
    }
  }

  lemma FirstLineIsOne(s: string)
    ensures OneLine(FirstLine(s).0)
  {
    FindFirst(s, '\n');
    FindCharInside(s, '\n');
  }

  /**
   The headers give back the keys; no project if there was none; and the project exactly when its path holds no
   newline and does not end in a carriage return, which reading by lines takes off.
  */
  lemma HeadersAfterRender(rows: seq<Row>, project: Option<string>)
    requires Rendered(rows, project).Success?
    ensures var h := Headers(Rendered(rows, project).value);
            && h.Some? && h.value.0 == Keys(Trimmed(rows))
            && (project.None? ==> h.value.1.None?)
            && (project.Some? ==> (h.value.1 == project <==> OneLine(project.value) && !EndsInCr(project.value)))
  {
    hide Rendered, Lines, SplitSpace;
    var t := Trimmed(rows);
    RenderAccepts(rows, project);
    BodyParts(rows, project);
    KeysBack(t, Tag(project) + Lines(t));
    if project.Some? {
      ProjectLine(project.value, Lines(t));
    } else {
      assert Tag(project) + Lines(t) == Lines(t);
      RowIsNoHeader(t);
    }
  }

  /** So a project directory named with a carriage return at its end is not read back, and its sets would not be listed for it. */
  lemma CarriageReturnIsLost()
    ensures var rows := [Row("KEY", "v")];
            && Rendered(rows, Some("/p\r")).Success?
            && Headers(Rendered(rows, Some("/p\r")).value).Some?
            && Headers(Rendered(rows, Some("/p\r")).value).value.1 != Some("/p\r")
  {
    var rows := [Row("KEY", "v")];
    assert Trimmed(rows)[0].key == "KEY";
    RenderAccepts(rows, Some("/p\r"));
    HeadersAfterRender(rows, Some("/p\r"));
    assert EndsInCr("/p\r");
  }

  // ---------- The loops ----------

  lemma {:induction false} FaultStays(rows: seq<Row>, n: nat)
    requires n <= |rows| && Fault(rows[..n]).Some?
    ensures Fault(rows) == Fault(rows[..n])
    decreases |rows|
  {
    if n < |rows| {
      var m := |rows| - 1;
      assert rows[..m][..n] == rows[..n];
      FaultStays(rows[..m], n);
    } else {
      assert rows[..n] == rows;
    }
  }

  lemma NothingPrinted()
    ensures Lines([]) == "" && Fault([]).None?
  {
  }

  lemma LastRow(t: seq<Row>)
    requires |t| > 0 && Fault(t[..|t| - 1]).None?
    ensures var n := |t| - 1;
            && Lines(t) == Lines(t[..n]) + Line(t[n])
            && Fault(t) == (if !ValidKey(t[n].key) then Some(NotAName(t[n].key))
                            else if t[n].key in Keys(t[..n]) then Some(Twice(t[n].key)) else None)
  {
  }

  lemma LastRowOf(t: seq<Row>, i: nat)
    requires i < |t|
    ensures |t[..i + 1]| == i + 1 && t[..i + 1][..i] == t[..i] && t[..i + 1][i] == t[i]
  {
  }

  lemma KeysMore(t: seq<Row>, i: nat)
    requires i < |t|
    ensures Keys(t[..i + 1]) == Keys(t[..i]) + [t[i].key]
  {
  }

  /** One more row. */
  lemma NextRow(t: seq<Row>, i: nat)
    requires i < |t| && Fault(t[..i]).None?
    ensures Lines(t[..i + 1]) == Lines(t[..i]) + Line(t[i])
    ensures Fault(t[..i + 1]) == (if !ValidKey(t[i].key) then Some(NotAName(t[i].key))
                                  else if t[i].key in Keys(t[..i]) then Some(Twice(t[i].key)) else None)
    ensures Fault(t[..i + 1]).Some? ==> Fault(t) == Fault(t[..i + 1])
  {
    hide Line, Lines, Fault, ValidKey, Keys;
    var u := t[..i + 1];
    LastRowOf(t, i);
    LastRow(u);
    if Fault(t[..i + 1]).Some? {
      FaultStays(t, i + 1);
    }
  }

  /** The sourceable body of a secrets file. */
  method Render(rows: seq<Row>, project: Option<string>) returns (r: Result<string, Refusal>)
    ensures r == Rendered(rows, project)
  {
    if |rows| == 0 {
      return Failure(NoRows);
    }
    hide Lines, Line, Fault, Trim, ValidKey;
    ghost var t := Trimmed(rows);
    NothingPrinted();
    var seen: set<string> := {};
    var keys: seq<string> := [];
    var text := "";
    assert t[..0] == [] && t[..|rows|] == t;
    for i := 0 to |rows|
      invariant keys == Keys(t[..i]) && text == Lines(t[..i]) && Fault(t[..i]).None?
      invariant forall k :: k in seen <==> k in keys
    {
      NextRow(t, i);
      KeysMore(t, i);
      var k := Trim(rows[i].key);
      if !ValidKey(k) {
        return Failure(NotAName(k));
      }
      if k in seen {
        return Failure(Twice(k));
      }
      seen := seen + {k};
      keys := keys + [k];
      text := text + Line(Row(k, rows[i].value));
    }
    r := Success((KEYS_HEADER + (Join(keys) + "\n")) + (Tag(project) + text));
  }

  function After(value: string, r: Option<(string, string)>): Option<(string, string)> {
    if r.Some? then Some((value + r.value.0, r.value.1)) else None
  }

  lemma ValueGoesOn(value: string, head: string, r: Option<(string, string)>)
    ensures After(value, After(head, r)) == After(value + head, r)
  {
    if r.Some? {
      assert value + (head + r.value.0) == (value + head) + r.value.0;
    }
  }

  /** A value up to its closing quote, a written quote at a time. */
  method TakeValue(after: string) returns (r: Option<(string, string)>)
    ensures r == ReadValue(after)
  {
    var value, tail := "", after;
    assert ReadValue(after).Some? ==> "" + ReadValue(after).value.0 == ReadValue(after).value.0;
    while true
      invariant After(value, ReadValue(tail)) == ReadValue(after)
      decreases |tail|
    {
      FindCharInside(tail, '\'');
      var end := FindChar(tail, '\'');
      if end.None? {
        return None;
      }
      var head, rest := tail[..end.value], tail[end.value + 1..];
      if !("\\''" <= rest) {
        return Some((value + head, rest));
      }
      ghost var more := ReadValue(rest[3..]);
      assert ReadValue(tail) == After(head + "'", more);
      ValueGoesOn(value, head + "'", more);
      assert value + (head + "'") == (value + head) + "'";
      value := value + head;
      value := value + "'";
      tail := rest[3..];
    }
  }

  lemma OntoGoesOn(rows: seq<Row>, row: Row, r: Result<seq<Row>, ReadError>)
    ensures Onto(rows, Onto([row], r)) == Onto(rows + [row], r)
  {
    if r.Success? {
      assert rows + ([row] + r.value) == (rows + [row]) + r.value;
    }
  }

  /** Read back what `Render` wrote. */
  method Parse(body: string) returns (r: Result<seq<Row>, ReadError>)
    ensures r == Parsed(body)
  {
    var rows, rest := [], body;
    assert Parsed(body).Success? ==> [] + Parsed(body).value == Parsed(body).value;
    while |rest| > 0
      invariant Onto(rows, Parsed(rest)) == Parsed(body)
      decreases |rest|
    {
      if rest[0] == '#' || rest[0] == '\n' {
        rest := AfterLine(rest);
        continue;
      }
      FindAssignInside(rest);
      var at := FindAssign(rest);
      if at.None? {
        return Failure(NotOurs);
      }
      var key := rest[..at.value];
      if !ValidKey(key) {
        return Failure(BadName(key));
      }
      var v := TakeValue(rest[at.value + 2..]);
      if v.None? {
        return Failure(Unterminated);
      }
      var tail := v.value.1;
      var next := if "\n" <= tail then tail[1..] else tail;
      OntoGoesOn(rows, Row(key, v.value.0), Parsed(next));
      rows := rows + [Row(key, v.value.0)];
      rest := next;
    }
    assert rows + [] == rows;
    r := Success(rows);
  }
}
