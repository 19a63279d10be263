/**
 A project path may hold newlines, and what follows one stands in the file as lines of its own. Exactly when the rows
 are read back all the same.
*/
module SecretsProject {
  import opened Wrappers
  import opened Secrets

  /** Every line is blank or a comment. */
  predicate Passed(s: string)
    decreases |s|
  {
    |s| == 0 || ((s[0] == '#' || s[0] == '\n') && Passed(AfterLine(s)))
  }

  predicate Named(rows: seq<Row>) {
    forall i :: 0 <= i < |rows| ==> ValidKey(rows[i].key)
  }

  function LastLine(s: string): string
    decreases |s|
  {
    if FindChar(s, '\n').Some? then FindCharInside(s, '\n'); LastLine(AfterLine(s)) else s
  }

  // ---------- Searching ----------

  lemma {:induction false} FindCharConcat(s: string, b: string, c: char)
    ensures FindChar(s, c).Some? ==> FindChar(s + b, c) == FindChar(s, c)
    ensures FindChar(s, c).None? ==>
              FindChar(s + b, c) == if FindChar(b, c).Some? then Some(|s| + FindChar(b, c).value) else None
  {
    if |s| == 0 {
      assert s + b == b;
    } else {
      assert (s + b)[1..] == s[1..] + b;
      FindCharConcat(s[1..], b, c);
    }
  }

  lemma {:induction false} FindCharMeans(s: string, c: char)
    ensures FindChar(s, c).None? <==> c !in s
  {
    if |s| > 0 {
      FindCharMeans(s[1..], c);
      assert s == [s[0]] + s[1..];
    }
  }

  lemma {:induction false} FindAssignMeans(s: string)
    ensures FindAssign(s).Some? ==>
              var p := FindAssign(s).value; p + 1 < |s| && s[p] == '=' && s[p + 1] == '\''
  {
    if |s| > 0 {
      FindAssignMeans(s[1..]);
    }
  }

  lemma AfterLineInside(s: string, b: string)
    requires FindChar(s, '\n').Some?
    ensures AfterLine(s + b) == AfterLine(s) + b
  {
    hide FindChar;
    FindCharConcat(s, b, '\n');
    FindCharInside(s, '\n');
    var n := FindChar(s, '\n').value;
    assert (s + b)[n + 1..] == s[n + 1..] + b;
  }

  lemma AfterLastLine(s: string, b: string)
    requires FindChar(s, '\n').None?
    ensures AfterLine(s + ("\n" + b)) == b && AfterLine(s) == ""
  {
    FindCharConcat(s, "\n" + b, '\n');
    assert (s + ("\n" + b))[|s| + 1..] == b;
  }

  lemma Assoc(a: string, b: string, c: string)
    ensures (a + b) + c == a + (b + c)
  {
  }

  // ---------- Written lines ----------

  lemma {:induction false} LinesFirst(rows: seq<Row>)
    requires |rows| > 0
    ensures Lines(rows) == Line(rows[0]) + Lines(rows[1..])
    decreases |rows|
  {
    hide Line;
    var n := |rows| - 1;
    if n == 0 {
      assert Lines(rows[..0]) == "" && rows[1..] == [];
    } else {
      LinesFirst(rows[..n]);
      assert rows[..n][1..] == rows[1..][..n - 1];
    }
  }

  lemma LinesRead(rows: seq<Row>)
    requires Named(rows)
    ensures Parsed(Lines(rows)) == Success(rows)
  {
    hide Parsed, Lines;
    LinesBack(rows, "");
    assert Lines(rows) + "" == Lines(rows);
    NothingLeft();
    assert rows + [] == rows;
  }

  /** A quote after `=` in a written value begins an escaped quote. */
  lemma {:induction false} QuoteFollows(w: string, j: nat)
    requires j + 1 < |Quoted(w)| && Quoted(w)[j] == '=' && Quoted(w)[j + 1] == '\''
    ensures j + 5 <= |Quoted(w)| && Quoted(w)[j + 2..j + 5] == "\\''"
    decreases |w|
  {
    if w[0] == '\'' {
      var e := "'\\''";
      assert Quoted(w) == e + Quoted(w[1..]) && |e| == 4;
      assert forall k :: 0 <= k < 4 ==> Quoted(w)[k] == e[k];
      assert e[0] != '=' && e[1] != '=' && e[2] != '=' && e[3] != '=';
      assert j >= 4;
      QuoteFollows(w[1..], j - 4);
      assert Quoted(w)[j + 2..j + 5] == Quoted(w[1..])[j - 2..j + 1];
    } else if j > 0 {
      QuoteFollows(w[1..], j - 1);
      assert Quoted(w)[j + 2..j + 5] == Quoted(w[1..])[j + 1..j + 4];
    } else {
      assert Quoted(w[1..])[0] == '\'';
      assert Quoted(w[1..]) == "'\\''" + Quoted(w[1..][1..]);
      assert Quoted(w)[2..5] == Quoted(w[1..])[1..4] == "\\''";
    }
  }

  /** Quoting keeps lines. */
  lemma {:induction false} QuotedLines(w: string)
    ensures FindChar(w, '\n').None? ==> FindChar(Quoted(w), '\n').None?
    ensures FindChar(w, '\n').Some? ==> FindChar(Quoted(w), '\n').Some? && AfterLine(Quoted(w)) == Quoted(AfterLine(w))
  {
    hide FindChar;
    if |w| > 0 {
      QuotedLines(w[1..]);
      if w[0] == '\n' {
        LineFirst("\n", Quoted(w[1..]));
        LineFirst("\n", w[1..]);
        assert w == "\n" + w[1..];
      } else {
        var e := if w[0] == '\'' then "'\\''" else [w[0]];
        assert Quoted(w) == e + Quoted(w[1..]) && w == [w[0]] + w[1..];
        FindCharMeans(e, '\n');
        FindCharMeans([w[0]], '\n');
        LineFirst(e, Quoted(w[1..]));
        LineFirst([w[0]], w[1..]);
      }
    } else {
      EmptyQuoted(w);
      FindCharMeans(w, '\n');
    }
  }

  /** Text of one line, or a newline, before other text. */
  lemma LineFirst(e: string, s: string)
    ensures FindChar(e, '\n').None? && FindChar(s, '\n').None? ==> FindChar(e + s, '\n').None?
    ensures FindChar(e, '\n').None? && FindChar(s, '\n').Some? ==>
              FindChar(e + s, '\n').Some? && AfterLine(e + s) == AfterLine(s)
    ensures e == "\n" ==> FindChar(e + s, '\n').Some? && AfterLine(e + s) == s
  {
    FindCharConcat(e, s, '\n');
    FindCharInside(s, '\n');
    if FindChar(e, '\n').None? && FindChar(s, '\n').Some? {
      var n := FindChar(s, '\n').value;
      assert (e + s)[|e| + n + 1..] == s[n + 1..];
    }
    if e == "\n" {
      assert (e + s)[1..] == s;
    }
  }

  lemma QuotedStarts(w: string)
    requires |w| > 0
    ensures |Quoted(w)| > 0 && Quoted(w)[0] == w[0]
  {
  }

  /** A written value's rest never begins like the end of an escaped quote. */
  lemma NoEscapeStart(w: string, b: string)
    ensures !("\\''" <= Quoted(w) + ("'\n" + b))
  {
    var s := Quoted(w) + ("'\n" + b);
    if |w| == 0 {
      assert s == "'\n" + b && s[0] == '\'';
    } else if w[0] == '\\' {
      assert Quoted(w) == "\\" + Quoted(w[1..]);
      assert s[1..] == Quoted(w[1..]) + ("'\n" + b);
      if |w| == 1 {
        assert s[1..] == "'\n" + b;
        assert s[2] == '\n';
      } else if w[1] == '\'' {
        assert Quoted(w[1..]) == "'\\''" + Quoted(w[1..][1..]);
        assert s[2] == '\\';
      } else {
        QuotedStarts(w[1..]);
        assert s[1] == w[1];
      }
    } else {
      QuotedStarts(w);
      assert s[0] == w[0];
    }
  }

  // ---------- Values that do and do not end ----------

  /** The value read so far, when `a` does not end it. */
  function Unclosed(a: string): Option<string>
    decreases |a|
  {
    FindCharInside(a, '\'');
    var end := FindChar(a, '\'');
    if end.None? then Some(a)
    else
      var t := a[end.value + 1..];
      if "\\''" <= t then
        match Unclosed(t[3..])
        case Some(v) => Some(a[..end.value] + "'" + v)
        case None => None
      else None
  }

  /** How a value that is cut in two by `b` reads on: past an escaped quote it begins again. */
  lemma ReadsOn(a: string, b: string)
    requires FindChar(a, '\'').Some?
    ensures FindChar(a, '\'').value < |a|
    ensures var end := FindChar(a, '\'').value;
            var t := a[end + 1..];
            "\\''" <= t && ReadValue(t[3..] + b).Some? ==>
              ReadValue(a + b) == Some((a[..end] + "'" + ReadValue(t[3..] + b).value.0, ReadValue(t[3..] + b).value.1))
    ensures "\\''" <= a[FindChar(a, '\'').value + 1..] && ReadValue(a[FindChar(a, '\'').value + 1..][3..] + b).None? ==>
              ReadValue(a + b).None?
  {
    hide ReadValue, FindChar;
    FindCharConcat(a, b, '\'');
    FindCharInside(a, '\'');
    var end := FindChar(a, '\'').value;
    var t := a[end + 1..];
    ReadValueAt(a + b, end);
    assert (a + b)[end + 1..] == t + b && (a + b)[..end] == a[..end];
    if "\\''" <= t {
      assert "\\''" <= t + b && (t + b)[3..] == t[3..] + b;
    }
  }

  /** Such a value ends at the next quote. */
  lemma {:induction false} OpenEnds(a: string, y: string, tail: string)
    requires Unclosed(a).Some? && '\'' !in y && !("\\''" <= tail)
    ensures ReadValue(a + (y + ("'" + tail))) == Some((Unclosed(a).value + y, tail))
    decreases |a|
  {
    hide ReadValue, FindChar;
    var b := y + ("'" + tail);
    var end := FindChar(a, '\'');
    FindCharInside(a, '\'');
    if end.None? {
      OpenHere(a, y, tail);
    } else {
      var t := a[end.value + 1..];
      ReadsOn(a, b);
      OpenEnds(t[3..], y, tail);
      Assoc(a[..end.value] + "'", Unclosed(t[3..]).value, y);
    }
  }

  lemma OpenHere(a: string, y: string, tail: string)
    requires FindChar(a, '\'').None? && '\'' !in y && !("\\''" <= tail)
    ensures ReadValue(a + (y + ("'" + tail))) == Some((a + y, tail))
  {
    hide ReadValue, FindChar;
    FindCharConcat(a, y + ("'" + tail), '\'');
    FindCharMeans(y, '\'');
    FindCharConcat(y, "'" + tail, '\'');
    QuoteFirst(tail);
    var s := a + (y + ("'" + tail));
    ReadValueAt(s, |a| + |y|);
    assert s[|a| + |y| + 1..] == tail && s[..|a| + |y|] == a + y;
  }

  lemma QuoteFirst(tail: string)
    ensures FindChar("'" + tail, '\'') == Some(0)
  {
  }

  /** With no quote left it does not end at all. */
  lemma {:induction false} OpenStays(a: string, y: string)
    requires Unclosed(a).Some? && '\'' !in y
    ensures ReadValue(a + y).None?
    decreases |a|
  {
    hide FindChar;
    var end := FindChar(a, '\'');
    FindCharInside(a, '\'');
    if end.None? {
      FindCharConcat(a, y, '\'');
      FindCharMeans(y, '\'');
    } else {
      ReadsOn(a, y);
      OpenStays(a[end.value + 1..][3..], y);
    }
  }

  /** A value that ends in `a` ends there whatever follows on the next line. */
  lemma {:induction false} ClosedEnds(a: string, b: string)
    requires Unclosed(a).None? && |b| > 0 && b[0] == '\n'
    ensures ReadValue(a).Some? && ReadValue(a + b) == Some((ReadValue(a).value.0, ReadValue(a).value.1 + b))
    decreases |a|
  {
    hide ReadValue, FindChar;
    ClosedHasQuote(a);
    var s, end := a + b, FindChar(a, '\'').value;
    FindCharConcat(a, b, '\'');
    FindCharInside(a, '\'');
    var t := a[end + 1..];
    ReadValueAt(s, end);
    ReadValueAt(a, end);
    assert s[end + 1..] == t + b && s[..end] == a[..end];
    assert "\\''" <= t + b <==> "\\''" <= t by {
      NotAcross(t, b);
    }
    if "\\''" <= t {
      assert (t + b)[3..] == t[3..] + b;
      ClosedEnds(t[3..], b);
    }
  }

  lemma ClosedHasQuote(a: string)
    requires Unclosed(a).None?
    ensures FindChar(a, '\'').Some?
  {
  }

  lemma NotAcross(t: string, b: string)
    requires |b| > 0 && b[0] == '\n'
    ensures "\\''" <= t + b <==> "\\''" <= t
  {
    var e, s := "\\''", t + b;
    assert s[|t|] == '\n' && e[0] != '\n' && e[1] != '\n' && e[2] != '\n';
    assert e <= s ==> forall i :: 0 <= i < 3 ==> e[i] == s[i];
    assert e <= s && |t| >= 3 ==> forall i :: 0 <= i < 3 ==> e[i] == t[i];
  }

  // ---------- Reading from a line's start ----------

  lemma NewlineDropped(t: string)
    ensures Parsed(if "\n" <= t then t[1..] else t) == Parsed(t)
  {
    if "\n" <= t {
      assert t[0] == '\n';
      assert FindChar(t, '\n') == Some(0);
      assert AfterLine(t) == t[1..];
    }
  }

  /** Nothing is read that begins with a quote, or has one, or a newline, in its name. */
  lemma BadStart(s: string, j: nat)
    requires |s| > 0 && s[0] != '#' && s[0] != '\n'
    requires j < |s| && (s[j] == '\'' || s[j] == '\n')
    requires FindAssign(s).Some? ==> j < FindAssign(s).value
    ensures Parsed(s).Failure?
  {
    FindAssignInside(s);
    if FindAssign(s).Some? {
      var key := s[..FindAssign(s).value];
      assert key[j] == s[j] && !NameChar(key[j]);
    }
  }

  /** What one row and the rest after it give. */
  lemma RowRead(key: string, tail: string)
    requires ValidKey(key)
    ensures ReadValue(tail).None? ==> Parsed(key + ("='" + tail)).Failure?
    ensures ReadValue(tail).Some? ==>
              Parsed(key + ("='" + tail)) == Onto([Row(key, ReadValue(tail).value.0)], Parsed(ReadValue(tail).value.1))
  {
    hide ReadValue, FindAssign;
    var s := key + ("='" + tail);
    assert s[0] == key[0] && Letter(s[0]);
    NoEquals(key, tail);
    KeyParts(key, tail);
    if ReadValue(tail).Some? {
      NewlineDropped(ReadValue(tail).value.1);
    }
  }

  /** Rows read too, and not those: as many, but others. */
  ghost predicate Others(r: Result<seq<Row>, ReadError>, rows: seq<Row>) {
    r.Success? ==> |r.value| == |rows| && r.value != rows
  }

  /** A value left open swallows the first row's name; what is read after it are as many rows as were written, but others. */
  lemma {:induction false} OpenReads(key: string, a: string, rows: seq<Row>)
    requires ValidKey(key) && Unclosed(a).Some? && Named(rows)
    ensures Others(Parsed(key + ("='" + (a + ("\n" + Lines(rows))))), rows)
    decreases |rows|, 0, 0
  {
    hide Parsed, ReadValue, Lines, Quoted, ValidKey;
    var tail := a + ("\n" + Lines(rows));
    RowRead(key, tail);
    if |rows| == 0 {
      NoLines(rows);
      assert tail == a + "\n";
      OpenStays(a, "\n");
    } else {
      var first, rest := rows[0], rows[1..];
      var y := "\n" + first.key + "=";
      var more := Quoted(first.value) + ("'\n" + Lines(rest));
      OpenSplits(rows);
      NameHasNoQuote(first.key);
      NoEscapeStart(first.value, Lines(rest));
      OpenEnds(a, y, more);
      InsideValue(first.value, rest);
      if Parsed(more) == Success(rest) {
        LastLineIs(Unclosed(a).value, first.key);
      }
      assert rows == [first] + rest;
    }
  }

  lemma NoLines(rows: seq<Row>)
    requires |rows| == 0
    ensures Lines(rows) == ""
  {
  }

  lemma RowSplits(r: Row, l: string)
    ensures Line(r) + l == r.key + ("=" + ("'" + (Quoted(r.value) + ("'\n" + l))))
  {
    hide Quoted;
    var q := Quoted(r.value);
    Assoc(r.key, "='" + (q + "'\n"), l);
    Assoc("='", q + "'\n", l);
    Assoc(q, "'\n", l);
    Assoc("=", "'", q + ("'\n" + l));
    assert "=" + "'" == "='";
  }

  lemma OpenSplits(rows: seq<Row>)
    requires |rows| > 0
    ensures "\n" + Lines(rows) ==
            ("\n" + rows[0].key + "=") + ("'" + (Quoted(rows[0].value) + ("'\n" + Lines(rows[1..]))))
  {
    hide Lines, Quoted, Line;
    LinesFirst(rows);
    RowSplits(rows[0], Lines(rows[1..]));
    var more := "'" + (Quoted(rows[0].value) + ("'\n" + Lines(rows[1..])));
    Assoc("\n", rows[0].key, "=" + more);
    Assoc("\n" + rows[0].key, "=", more);
  }

  lemma NameHasNoQuote(key: string)
    requires ValidKey(key)
    ensures '\'' !in "\n" + key + "=" && FindChar(key + "=", '\n').None? && |key| > 0 && key[0] != '#'
  {
    forall i | 0 <= i < |key| ensures key[i] != '\'' && key[i] != '\n' {
      assert NameChar(key[i]);
    }
    FindCharMeans(key + "=", '\n');
  }

  lemma {:induction false} LastLineIs(v: string, key: string)
    requires ValidKey(key)
    ensures LastLine(v + ("\n" + key + "=")) == key + "=" && |key| > 0 && key[0] != '#'
    decreases |v|
  {
    NameHasNoQuote(key);
    var s := v + ("\n" + key + "=");
    assert "\n" + key + "=" == "\n" + (key + "=");
    FindCharConcat(v, "\n" + (key + "="), '\n');
    if FindChar(v, '\n').Some? {
      FindCharInside(v, '\n');
      AfterLineInside(v, "\n" + (key + "="));
      LastLineIs(AfterLine(v), key);
    } else {
      AfterLastLine(v, key + "=");
    }
  }

  /** Reading on from inside a written value: its last line is a comment, or what is read are others. */
  lemma {:induction false} InsideValue(w: string, rows: seq<Row>)
    requires Named(rows)
    ensures var r := Parsed(Quoted(w) + ("'\n" + Lines(rows)));
            Others(r, rows) || (r == Success(rows) && |LastLine(w)| > 0 && LastLine(w)[0] == '#')
    decreases |rows|, 1, |w|
  {
    hide Parsed, Quoted, Lines;
    var tail := "'\n" + Lines(rows);
    var s := Quoted(w) + tail;
    if |w| == 0 {
      EmptyQuoted(w);
      QuoteStarts(s);
    } else {
      QuotedStarts(w);
      if w[0] == '#' || w[0] == '\n' {
        LineSkipped(s);
        QuotedLines(w);
        if FindChar(w, '\n').Some? {
          AfterLineInside(Quoted(w), tail);
          InsideValue(AfterLine(w), rows);
        } else {
          FindCharConcat(Quoted(w), "'", '\n');
          assert FindChar("'", '\n').None? by { FindCharMeans("'", '\n'); }
          assert s == (Quoted(w) + "'") + ("\n" + Lines(rows));
          AfterLastLine(Quoted(w) + "'", Lines(rows));
          LinesRead(rows);
          FindCharMeans(w, '\n');
        }
      } else {
        ValueAsRow(w, rows);
      }
    }
  }

  lemma LineSkipped(s: string)
    requires |s| > 0 && (s[0] == '#' || s[0] == '\n')
    ensures Parsed(s) == Parsed(AfterLine(s))
  {
  }

  lemma QuoteStarts(s: string)
    requires |s| > 0 && s[0] == '\''
    ensures Parsed(s).Failure?
  {
    FindAssignMeans(s);
    BadStart(s, 0);
  }

  /** A line of a written value, read as a row. */
  lemma {:induction false} ValueAsRow(w: string, rows: seq<Row>)
    requires Named(rows) && |w| > 0 && w[0] != '#' && w[0] != '\n'
    ensures Others(Parsed(Quoted(w) + ("'\n" + Lines(rows))), rows)
    decreases |rows|, 1, 0
  {
    hide Parsed, Quoted, Lines, FindAssign;
    var q, tail := Quoted(w), "'\n" + Lines(rows);
    var s := q + tail;
    QuotedStarts(w);
    FindAssignMeans(s);
    assert s[|q|] == '\'';
    if FindAssign(s).None? || FindAssign(s).value > |q| {
      BadStart(s, |q|);
    } else {
      var p := FindAssign(s).value;
      var key := s[..p];
      assert s == key + ("='" + s[p + 2..]);
      if !ValidKey(key) {
        NotAKey(s);
      } else if p + 1 < |q| {
        QuoteFollows(w, p);
        EscapeRead(s[p + 2..]) by {
          assert s[p + 2..][..3] == q[p + 2..p + 5];
        }
        RowRead(key, s[p + 2..]);
      } else {
        assert p + 1 == |q|;
        assert s[p + 2..] == "" + ("\n" + Lines(rows));
        OpenReads(key, "", rows);
      }
    }
  }

  lemma NotAKey(s: string)
    requires |s| > 0 && s[0] != '#' && s[0] != '\n' && FindAssign(s).Some?
    requires FindAssign(s).value <= |s| && !ValidKey(s[..FindAssign(s).value])
    ensures Parsed(s).Failure?
  {
  }

  /** After an assignment, the rest of an escaped quote is a backslash, and then a quote nobody can read. */
  lemma EscapeRead(t: string)
    requires "\\''" <= t
    ensures ReadValue(t).Some? && Parsed(ReadValue(t).value.1).Failure?
  {
    hide Parsed;
    assert t[0] == '\\' && t[1] == '\'' && t[2] == '\'';
    assert FindChar(t[1..], '\'') == Some(0);
    assert FindChar(t, '\'') == Some(1);
    ReadValueAt(t, 1);
    assert t[2..][0] == '\'';
    QuoteStarts(t[2..]);
  }

  // ---------- The lines of a path ----------

  /** What is read of lines put before written rows: those rows exactly if every line is passed over, and never fewer. */
  lemma {:induction false} LinesBefore(m: string, rows: seq<Row>)
    requires Named(rows)
    ensures var r := Parsed(m + ("\n" + Lines(rows)));
            && (r.Success? ==> |r.value| >= |rows|)
            && (r == Success(rows) <==> Passed(m))
    decreases |m|
  {
    hide Parsed, Lines;
    var b := "\n" + Lines(rows);
    var s := m + b;
    if |m| == 0 {
      assert s == "" + ("\n" + Lines(rows));
      LineSkipped(s);
      AfterLastLine("", Lines(rows));
      LinesRead(rows);
    } else if m[0] == '#' || m[0] == '\n' {
      LineSkipped(s);
      if FindChar(m, '\n').Some? {
        AfterLineInside(m, b);
        LinesBefore(AfterLine(m), rows);
      } else {
        AfterLastLine(m, Lines(rows));
        LinesRead(rows);
        assert Passed("");
      }
    } else {
      RowBefore(m, rows);
    }
  }

  lemma {:induction false} RowBefore(m: string, rows: seq<Row>)
    requires Named(rows) && |m| > 0 && m[0] != '#' && m[0] != '\n'
    ensures var r := Parsed(m + ("\n" + Lines(rows))); r.Success? ==> |r.value| >= |rows| && r.value != rows
    decreases |m|, 0
  {
    hide Parsed, Lines, FindAssign, Unclosed, ReadValue;
    var b := "\n" + Lines(rows);
    var s := m + b;
    FindAssignMeans(s);
    assert s[|m|] == '\n' && s[0] == m[0];
    if FindAssign(s).None? || FindAssign(s).value > |m| {
      BadStart(s, |m|);
    } else {
      var p := FindAssign(s).value;
      assert p + 1 < |m|;
      var key, a := s[..p], m[p + 2..];
      assert s == key + ("='" + (a + b));
      if !ValidKey(key) {
        NotAKey(s);
      } else if Unclosed(a).Some? {
        OpenReads(key, a, rows);
      } else {
        ClosedEnds(a, b);
        RowRead(key, a + b);
        LinesBefore(ReadValue(a).value.1, rows);
      }
    }
  }

  // ---------- The file ----------

  /** What follows a path's first line is all blank lines and comments. */
  predicate PathIsPassed(project: Option<string>) {
    project.Some? ==> Passed(AfterLine(project.value))
  }

  lemma TagParts(project: string, rest: string) returns (first: string)
    requires !OneLine(project)
    ensures OneLine(first) && project == first + ("\n" + AfterLine(project))
    ensures Tag(Some(project)) + rest == (PROJECT_HEADER + first) + ("\n" + (AfterLine(project) + ("\n" + rest)))
  {
    FindCharInside(project, '\n');
    FindCharMeans(project, '\n');
    first := project[..FindChar(project, '\n').value];
    FirstHasNone(project);
    var more := AfterLine(project);
    assert project == first + ("\n" + more);
    Assoc(PROJECT_HEADER + project, "\n", rest);
    Assoc(PROJECT_HEADER, first, "\n" + more);
    Assoc(PROJECT_HEADER + first, "\n" + more, "\n" + rest);
    Assoc("\n", more, "\n" + rest);
  }

  lemma {:induction false} FirstHasNone(s: string)
    requires FindChar(s, '\n').Some?
    ensures FindChar(s, '\n').value <= |s| && OneLine(s[..FindChar(s, '\n').value])
  {
    FindCharInside(s, '\n');
    if s[0] != '\n' {
      FirstHasNone(s[1..]);
      var n := FindChar(s, '\n').value;
      assert s[..n] == [s[0]] + s[1..][..n - 1];
    }
  }

  lemma TagRead(project: Option<string>, rows: seq<Row>)
    requires Named(rows)
    ensures Parsed(Tag(project) + Lines(rows)) == Success(rows) <==> PathIsPassed(project)
  {
    hide Parsed, Lines, Tag;
    LinesRead(rows);
    if project.None? || OneLine(project.value) {
      ProjectSkipped(project, Lines(rows));
      if project.Some? {
        FindCharMeans(project.value, '\n');
      }
    } else {
      var more := AfterLine(project.value);
      var first := TagParts(project.value, Lines(rows));
      CommentSkipped(PROJECT_HEADER + first, more + ("\n" + Lines(rows)));
      LinesBefore(more, rows);
    }
  }

  /**
   The file round trip, for every project: `parse` reads back what `render` wrote, names trimmed, exactly when every
   line of the path after its first is blank or begins with `#`. A path without a newline has none.
  */
  lemma ParseAfterRender(rows: seq<Row>, project: Option<string>)
    requires Rendered(rows, project).Success?
    ensures Parsed(Rendered(rows, project).value) == Success(Trimmed(rows)) <==> PathIsPassed(project)
  {
    hide Parsed, Rendered, Lines, Tag, PathIsPassed;
    var t := Trimmed(rows);
    RenderAccepts(rows, project);
    BodyParts(rows, project);
    KeysOneLine(t);
    CommentSkipped(KeysLine(t), Tag(project) + Lines(t));
    TagRead(project, t);
  }

  /** Such a path: the line after its newline is read back as a row of its own. */
  lemma PathLineIsRead()
    ensures var rows := [Row("KEY", "v")];
            && Rendered(rows, Some("/p\nX='1'")).Success?
            && Parsed(Rendered(rows, Some("/p\nX='1'")).value) != Success(Trimmed(rows))
  {
    var rows, project := [Row("KEY", "v")], "/p\nX='1'";
    assert Trimmed(rows)[0].key == "KEY";
    RenderAccepts(rows, Some(project));
    assert FindChar(project[2..], '\n') == Some(0);
    assert FindChar(project[1..], '\n') == Some(1);
    assert AfterLine(project)[0] == 'X';
    ParseAfterRender(rows, Some(project));
  }

  // ---------- And a shell ----------

  lemma {:induction false} LinesSkipped(m: string, rest: string)
    requires Passed(m)
    ensures Sourced(m + ("\n" + rest)) == Sourced(rest)
    decreases |m|
  {
    var s := m + ("\n" + rest);
    if |m| == 0 {
      assert s == "" + ("\n" + rest);
      AfterLastLine("", rest);
    } else if FindChar(m, '\n').Some? {
      AfterLineInside(m, "\n" + rest);
      LinesSkipped(AfterLine(m), rest);
    } else {
      AfterLastLine(m, rest);
    }
  }

  lemma LinesAlone(rows: seq<Row>)
    requires Named(rows)
    ensures Sourced(Lines(rows)) == Some(rows)
  {
    hide Sourced, Lines;
    NothingLeft();
    LinesSourced(rows, "");
    assert Lines(rows) + "" == Lines(rows);
    assert rows + [] == rows;
  }

  lemma TagSourced(project: Option<string>, rest: string)
    requires PathIsPassed(project)
    ensures Sourced(Tag(project) + rest) == Sourced(rest)
  {
    hide Sourced, Tag, Passed;
    if project.None? || OneLine(project.value) {
      ProjectSkipped(project, rest);
    } else {
      var more := AfterLine(project.value);
      var first := TagParts(project.value, rest);
      CommentSkipped(PROJECT_HEADER + first, more + ("\n" + rest));
      LinesSkipped(more, rest);
    }
  }

  /** A shell that reads the file assigns exactly those rows, each value literally, and does nothing else. */
  lemma SourcedAfterRender(rows: seq<Row>, project: Option<string>)
    requires Rendered(rows, project).Success? && PathIsPassed(project)
    ensures Sourced(Rendered(rows, project).value) == Some(Trimmed(rows))
  {
    hide Sourced, Lines, Rendered, Tag, PathIsPassed;
    var t := Trimmed(rows);
    RenderAccepts(rows, project);
    BodyParts(rows, project);
    KeysOneLine(t);
    CommentSkipped(KeysLine(t), Tag(project) + Lines(t));
    TagSourced(project, Lines(t));
    LinesAlone(t);
  }
}
