/** `get_line_col`: the scanner that reads a line (and maybe a column) number
    from the text right after a matched path. The column is the integer 0 in
    the source when none is read and otherwise the digit string itself, so the
    model keeps it as `Option<string>`, `None` standing for that integer 0. */
module LineCol {
  import opened PathText

  /** A line number and, when one was read, a column number, as digit strings. */
  datatype LineCol = LineCol(line: string, col: Option<string>)

  predicate AllDigits(s: string) {
    forall i :: 0 <= i < |s| ==> IsDigit(s[i])
  }

  /** The length of the run of digits that starts at offset `p`. */
  function DigitRun(buf: string, p: nat): (n: nat)
    ensures n > 0 ==> p + n <= |buf|
    ensures forall i :: p <= i < p + n ==> IsDigit(buf[i])
    ensures !IsDigit(CharAt(buf, p + n))
    decreases |buf| - p
  {
    if p < |buf| && IsDigit(buf[p]) then 1 + DigitRun(buf, p + 1) else 0
  }

  /** The digits that start at offset `p`. */
  function Digits(buf: string, p: nat): (d: string)
    requires IsDigit(CharAt(buf, p))
    ensures |d| == DigitRun(buf, p) && |d| > 0 && AllDigits(d)
    ensures p + |d| <= |buf| && d == buf[p..p + |d|]
  {
    buf[p..p + DigitRun(buf, p)]
  }

  /** The run of digits at `p` is `n` when the buffer holds the digits `n`
      there and no digit after them. */
  lemma {:induction false} DigitRunOf(buf: string, p: nat, n: string)
    requires AllDigits(n) && p + |n| <= |buf| && buf[p..p + |n|] == n
    requires !IsDigit(CharAt(buf, p + |n|))
    ensures DigitRun(buf, p) == |n|
    decreases |n|
  {
    if n != [] {
      assert buf[p] == n[0];
      assert buf[p + 1..p + 1 + |n[1..]|] == n[1..];
      DigitRunOf(buf, p + 1, n[1..]);
    }
  }

  /** What `get_line_col` returns for the text at `pos`: `:LINE` (followed by
      anything but a colon), `:LINE:COL` (the column kept only when a control
      character, a space or a colon follows it, so that a date is not taken for
      a column), `: line LINE` and `: LINE:` (bash), and `", line LINE`
      (Python). */
  function ParseLineCol(buf: string, pos: nat): Option<LineCol> {
    if CharAt(buf, pos) == ':' then
      if CharAt(buf, pos + 1) == ' ' then ParseBash(buf, pos + 2)
      else if IsDigit(CharAt(buf, pos + 1)) then ParseLineThenCol(buf, pos + 1)
      else None
    else if CharAt(buf, pos) == '"' then ParsePython(buf, pos + 1)
    else None
  }

  /** After `: `: either `line LINE`, or `LINE:`. */
  function ParseBash(buf: string, q: nat): Option<LineCol> {
    if CharAt(buf, q) == 'l' then
      if Substr(buf, q + 1, q + 5) == "ine " && IsDigit(CharAt(buf, q + 5)) then
        Some(LineCol(Digits(buf, q + 5), None))
      else None
    else if IsDigit(CharAt(buf, q)) && CharAt(buf, q + DigitRun(buf, q)) == ':' then
      Some(LineCol(Digits(buf, q), None))
    else None
  }

  /** After `:`, at a digit: the line, then perhaps `:COL`. */
  function ParseLineThenCol(buf: string, p: nat): Option<LineCol>
    requires IsDigit(CharAt(buf, p))
  {
    var c := p + DigitRun(buf, p) + 1;
    if CharAt(buf, c - 1) == ':' && IsDigit(CharAt(buf, c)) then
      var after := CharAt(buf, c + DigitRun(buf, c));
      if after as int <= 32 || after == ':' then Some(LineCol(Digits(buf, p), Some(Digits(buf, c))))
      else Some(LineCol(Digits(buf, p), None))
    else Some(LineCol(Digits(buf, p), None))
  }

  /** After `"`: `, line LINE`. */
  function ParsePython(buf: string, p: nat): Option<LineCol> {
    if Substr(buf, p, p + 7) == ", line " && IsDigit(CharAt(buf, p + 7)) then
      Some(LineCol(Digits(buf, p + 7), None))
    else None
  }

  /** The digit loop of `get_line_col`: starting at a digit, read the whole run. */
  method ScanDigits(buf: string, start: nat) returns (digits: string, pos: nat)
    requires IsDigit(CharAt(buf, start))
    ensures digits == Digits(buf, start) && pos == start + |digits|
  {
    digits := [CharAt(buf, start)];
    pos := start + 1;
    var ch := CharAt(buf, pos);
    while IsDigit(ch)
      invariant start < pos <= start + DigitRun(buf, start)
      invariant digits == buf[start..pos] && ch == CharAt(buf, pos)
      decreases |buf| - pos
    {
      digits := digits + [ch];
      pos := pos + 1;
      ch := CharAt(buf, pos);
    }
  }

  /** `get_line_col`, reading the buffer one character at a time. */
  method GetLineCol(buf: string, pos: nat) returns (r: Option<LineCol>)
    ensures r == ParseLineCol(buf, pos)
  {
    var ch := CharAt(buf, pos);
    if ch == ':' {
      ch := CharAt(buf, pos + 1);
      if ch == ' ' {
        r := ScanBash(buf, pos + 2);
      } else if IsDigit(ch) {
        r := ScanLineThenCol(buf, pos + 1);
      } else {
        r := None;
      }
    } else if ch == '"' {
      r := ScanPython(buf, pos + 1);
    } else {
      r := None;
    }
  }

  /** The `: line LINE` and `: LINE:` branch of `get_line_col`, from the
      character after `: `. */
  method ScanBash(buf: string, pos0: nat) returns (r: Option<LineCol>)
    ensures r == ParseBash(buf, pos0)
  {
    var pos := pos0;
    var ch := CharAt(buf, pos);
    if ch == 'l' {
      if Substr(buf, pos + 1, pos + 5) == "ine " {
        pos := pos + 5;
        if !IsDigit(CharAt(buf, pos)) {
          return None;
        }
        var line;
        line, pos := ScanDigits(buf, pos);
        return Some(LineCol(line, None));
      }
    } else if IsDigit(ch) {
      var line;
      line, pos := ScanDigits(buf, pos);
      ch := CharAt(buf, pos);
      if ch == ':' {
        return Some(LineCol(line, None));
      }
    }
    return None;
  }

  /** The `:LINE[:COL]` branch of `get_line_col`, from the first digit. */
  method ScanLineThenCol(buf: string, pos0: nat) returns (r: Option<LineCol>)
    requires IsDigit(CharAt(buf, pos0))
    ensures r == ParseLineThenCol(buf, pos0)
  {
    var line, pos := ScanDigits(buf, pos0);
    var ch := CharAt(buf, pos);
    if ch != ':' {
      return Some(LineCol(line, None));
    }
    pos := pos + 1;
    if !IsDigit(CharAt(buf, pos)) {
      return Some(LineCol(line, None));
    }
    var col;
    col, pos := ScanDigits(buf, pos);
    ch := CharAt(buf, pos);
    if ch as int <= 32 || ch == ':' {
      return Some(LineCol(line, Some(col)));
    } else {
      // a date such as PATH:LINE:YEAR-MONTH-DAY
      return Some(LineCol(line, None));
    }
  }

  /** The `", line LINE` branch of `get_line_col`, from the character after `"`. */
  method ScanPython(buf: string, pos0: nat) returns (r: Option<LineCol>)
    ensures r == ParsePython(buf, pos0)
  {
    var pos := pos0;
    if Substr(buf, pos, pos + 7) == ", line " {
      pos := pos + 7;
      if !IsDigit(CharAt(buf, pos)) {
        return None;
      }
      var line;
      line, pos := ScanDigits(buf, pos);
      return Some(LineCol(line, None));
    }
    return None;
  }

  // ---------------------------------------------------------------------------
  // What a result means

  /** The buffer holds `s` at offset `p`. */
  predicate TextAt(buf: string, p: nat, s: string) {
    p + |s| <= |buf| && buf[p..p + |s|] == s
  }

  lemma TextAtConcat(buf: string, p: nat, s: string, t: string)
    ensures TextAt(buf, p, s + t) <==> TextAt(buf, p, s) && TextAt(buf, p + |s|, t)
  {
    if TextAt(buf, p, s + t) {
      assert buf[p..p + |s|] == buf[p..p + |s + t|][..|s|];
      assert buf[p + |s|..p + |s| + |t|] == buf[p..p + |s + t|][|s|..];
    }
    if TextAt(buf, p, s) && TextAt(buf, p + |s|, t) {
      assert buf[p..p + |s + t|] == buf[p..p + |s|] + buf[p + |s|..p + |s| + |t|];
    }
  }

  lemma TextAtChar(buf: string, p: nat, c: char)
    ensures TextAt(buf, p, [c]) <==> p < |buf| && buf[p] == c
  {
    if p < |buf| && buf[p] == c {
      assert buf[p..p + 1] == [buf[p]];
    }
  }

  /** A result always carries a non-empty run of digits as its line, read
      right after one of the recognised lead-ins; a column is a non-empty run of
      digits read right after `:LINE:` and followed by a control character, a
      space, a colon or the end of the buffer. */
  lemma ParseLineColSound(buf: string, pos: nat)
    requires ParseLineCol(buf, pos).Some?
    ensures var lc := ParseLineCol(buf, pos).value;
      |lc.line| > 0 && AllDigits(lc.line) &&
      (TextAt(buf, pos, ":" + lc.line) || TextAt(buf, pos, ": " + lc.line + ":") ||
       TextAt(buf, pos, ": line " + lc.line) || TextAt(buf, pos, "\", line " + lc.line))
    ensures var lc := ParseLineCol(buf, pos).value;
      lc.col.Some? ==>
        (|lc.col.value| > 0 && AllDigits(lc.col.value) &&
         TextAt(buf, pos, ":" + lc.line + ":" + lc.col.value) &&
         (CharAt(buf, pos + 2 + |lc.line| + |lc.col.value|) as int <= 32 ||
          CharAt(buf, pos + 2 + |lc.line| + |lc.col.value|) == ':'))
  {
    if CharAt(buf, pos) == ':' {
      TextAtChar(buf, pos, ':');
      if CharAt(buf, pos + 1) == ' ' {
        SoundBash(buf, pos);
      } else {
        SoundColon(buf, pos);
      }
    } else {
      SoundPython(buf, pos);
    }
  }

  lemma SoundBash(buf: string, pos: nat)
    requires CharAt(buf, pos) == ':' && CharAt(buf, pos + 1) == ' '
    requires ParseBash(buf, pos + 2).Some?
    ensures var lc := ParseBash(buf, pos + 2).value;
      |lc.line| > 0 && AllDigits(lc.line) && lc.col.None? &&
      (TextAt(buf, pos, ": " + lc.line + ":") || TextAt(buf, pos, ": line " + lc.line))
  {
    TextAtChar(buf, pos, ':');
    TextAtChar(buf, pos + 1, ' ');
    TextAtConcat(buf, pos, ":", " ");
    if CharAt(buf, pos + 2) == 'l' {
      SoundBashLine(buf, pos);
    } else {
      var lc := ParseBash(buf, pos + 2).value;
      TextAtConcat(buf, pos, ": ", lc.line);
      TextAtChar(buf, pos + 2 + |lc.line|, ':');
      TextAtConcat(buf, pos, ": " + lc.line, ":");
    }
  }

  lemma SoundBashLine(buf: string, pos: nat)
    requires TextAt(buf, pos, ": ") && CharAt(buf, pos + 2) == 'l'
    requires ParseBash(buf, pos + 2).Some?
    ensures var lc := ParseBash(buf, pos + 2).value;
      |lc.line| > 0 && AllDigits(lc.line) && lc.col.None? && TextAt(buf, pos, ": line " + lc.line)
  {
    var lc := ParseBash(buf, pos + 2).value;
    TextAtChar(buf, pos + 2, 'l');
    SubstrFull(buf, pos + 3, pos + 7);
    assert TextAt(buf, pos + 3, "ine ");
    TextAtConcat(buf, pos, ": ", "l");
    TextAtConcat(buf, pos, ": l", "ine ");
    TextAtConcat(buf, pos, ": line ", lc.line);
  }

  lemma SoundColon(buf: string, pos: nat)
    requires CharAt(buf, pos) == ':' && IsDigit(CharAt(buf, pos + 1))
    ensures var lc := ParseLineThenCol(buf, pos + 1).value;
      |lc.line| > 0 && AllDigits(lc.line) && TextAt(buf, pos, ":" + lc.line)
    ensures var lc := ParseLineThenCol(buf, pos + 1).value;
      lc.col.Some? ==>
        (|lc.col.value| > 0 && AllDigits(lc.col.value) &&
         TextAt(buf, pos, ":" + lc.line + ":" + lc.col.value) &&
         (CharAt(buf, pos + 2 + |lc.line| + |lc.col.value|) as int <= 32 ||
          CharAt(buf, pos + 2 + |lc.line| + |lc.col.value|) == ':'))
  {
    var line := Digits(buf, pos + 1);
    assert ParseLineThenCol(buf, pos + 1).value.line == line;
    SoundColonLine(buf, pos, line);
    SoundColonColumn(buf, pos, line);
  }

  lemma SoundColonColumn(buf: string, pos: nat, line: string)
    requires CharAt(buf, pos) == ':' && IsDigit(CharAt(buf, pos + 1))
    requires line == Digits(buf, pos + 1) && TextAt(buf, pos, ":" + line)
    ensures var lc := ParseLineThenCol(buf, pos + 1).value;
      lc.col.Some? ==>
        (|lc.col.value| > 0 && AllDigits(lc.col.value) &&
         TextAt(buf, pos, ":" + line + ":" + lc.col.value) &&
         (CharAt(buf, pos + 2 + |line| + |lc.col.value|) as int <= 32 ||
          CharAt(buf, pos + 2 + |line| + |lc.col.value|) == ':'))
  {
    var lc := ParseLineThenCol(buf, pos + 1).value;
    var c := pos + 2 + |line|;
    assert c == pos + 1 + DigitRun(buf, pos + 1) + 1;
    if CharAt(buf, c - 1) == ':' && IsDigit(CharAt(buf, c)) {
      var col := Digits(buf, c);
      var after := CharAt(buf, c + DigitRun(buf, c));
      if after as int <= 32 || after == ':' {
        assert lc.col == Some(col);
        SoundColonCol(buf, pos, line, c);
      } else {
        assert lc.col.None?;
      }
    } else {
      assert lc.col.None?;
    }
  }

  lemma SoundColonLine(buf: string, pos: nat, line: string)
    requires CharAt(buf, pos) == ':' && IsDigit(CharAt(buf, pos + 1))
    requires line == Digits(buf, pos + 1)
    ensures TextAt(buf, pos, ":" + line)
  {
    TextAtChar(buf, pos, ':');
    assert TextAt(buf, pos + 1, line);
    TextAtConcat(buf, pos, ":", line);
  }

  lemma SoundColonCol(buf: string, pos: nat, line: string, c: nat)
    requires TextAt(buf, pos, ":" + line) && c == pos + 2 + |line|
    requires CharAt(buf, c - 1) == ':' && IsDigit(CharAt(buf, c))
    ensures TextAt(buf, pos, ":" + line + ":" + Digits(buf, c))
  {
    var col := Digits(buf, c);
    assert TextAt(buf, c, col);
    TextAtChar(buf, c - 1, ':');
    TextAtConcat(buf, pos, ":" + line, ":");
    TextAtConcat(buf, pos, ":" + line + ":", col);
  }

  lemma SoundPython(buf: string, pos: nat)
    requires CharAt(buf, pos) == '"'
    requires ParsePython(buf, pos + 1).Some?
    ensures var lc := ParsePython(buf, pos + 1).value;
      |lc.line| > 0 && AllDigits(lc.line) && lc.col.None? && TextAt(buf, pos, "\", line " + lc.line)
  {
    var lc := ParsePython(buf, pos + 1).value;
    TextAtChar(buf, pos, '"');
    SubstrFull(buf, pos + 1, pos + 8);
    assert TextAt(buf, pos + 1, ", line ");
    TextAtConcat(buf, pos, "\"", ", line ");
    TextAtConcat(buf, pos, "\", line ", lc.line);
  }

  // ---------------------------------------------------------------------------
  // The recognised forms

  /** `:LINE` followed by something other than a digit or a colon gives the
      line and no column. */
  lemma ColonLine(buf: string, pos: nat, n: string)
    requires |n| > 0 && AllDigits(n) && TextAt(buf, pos, ":" + n)
    requires !IsDigit(CharAt(buf, pos + 1 + |n|)) && CharAt(buf, pos + 1 + |n|) != ':'
    ensures ParseLineCol(buf, pos) == Some(LineCol(n, None))
  {
    TextAtConcat(buf, pos, ":", n);
    TextAtChar(buf, pos, ':');
    DigitRunOf(buf, pos + 1, n);
  }

  /** `:LINE:` followed by something other than a digit gives the line and no
      column. */
  lemma ColonLineNoCol(buf: string, pos: nat, n: string)
    requires |n| > 0 && AllDigits(n) && TextAt(buf, pos, ":" + n + ":")
    requires !IsDigit(CharAt(buf, pos + 2 + |n|))
    ensures ParseLineCol(buf, pos) == Some(LineCol(n, None))
  {
    TextAtConcat(buf, pos, ":" + n, ":");
    TextAtConcat(buf, pos, ":", n);
    TextAtChar(buf, pos, ':');
    TextAtChar(buf, pos + 1 + |n|, ':');
    DigitRunOf(buf, pos + 1, n);
  }

  /** `:LINE:COL` followed by a control character, a space, a colon or the end
      of the buffer gives both numbers. */
  lemma ColonLineCol(buf: string, pos: nat, n: string, m: string)
    requires |n| > 0 && AllDigits(n) && |m| > 0 && AllDigits(m)
    requires TextAt(buf, pos, ":" + n + ":" + m)
    requires CharAt(buf, pos + 2 + |n| + |m|) as int <= 32 || CharAt(buf, pos + 2 + |n| + |m|) == ':'
    ensures ParseLineCol(buf, pos) == Some(LineCol(n, Some(m)))
  {
    ColonLineColParts(buf, pos, n, m);
  }

  /** `:LINE:COL` followed by any other character (as in the date of
      `:12:2023-01-31`) keeps the line and drops the column. */
  lemma DateGuard(buf: string, pos: nat, n: string, m: string)
    requires |n| > 0 && AllDigits(n) && |m| > 0 && AllDigits(m)
    requires TextAt(buf, pos, ":" + n + ":" + m)
    requires !IsDigit(CharAt(buf, pos + 2 + |n| + |m|))
    requires CharAt(buf, pos + 2 + |n| + |m|) as int > 32 && CharAt(buf, pos + 2 + |n| + |m|) != ':'
    ensures ParseLineCol(buf, pos) == Some(LineCol(n, None))
  {
    ColonLineColParts(buf, pos, n, m);
  }

  /** How `:LINE:COL` is read when the column is not followed by a digit. */
  lemma ColonLineColParts(buf: string, pos: nat, n: string, m: string)
    requires |n| > 0 && AllDigits(n) && |m| > 0 && AllDigits(m)
    requires TextAt(buf, pos, ":" + n + ":" + m)
    requires !IsDigit(CharAt(buf, pos + 2 + |n| + |m|))
    ensures CharAt(buf, pos) == ':' && CharAt(buf, pos + 1) != ' '
    ensures DigitRun(buf, pos + 1) == |n| && Digits(buf, pos + 1) == n
    ensures CharAt(buf, pos + 1 + |n|) == ':'
    ensures DigitRun(buf, pos + 2 + |n|) == |m| && Digits(buf, pos + 2 + |n|) == m
  {
    TextAtConcat(buf, pos, ":" + n + ":", m);
    TextAtConcat(buf, pos, ":" + n, ":");
    TextAtConcat(buf, pos, ":", n);
    TextAtChar(buf, pos, ':');
    TextAtChar(buf, pos + 1 + |n|, ':');
    assert !IsDigit(CharAt(buf, pos + 1 + |n|));
    DigitRunOf(buf, pos + 1, n);
    DigitRunOf(buf, pos + 2 + |n|, m);
    assert buf[pos + 1] == n[0];
  }

  /** `: line LINE` (bash) gives the line and no column. */
  lemma BashLine(buf: string, pos: nat, n: string)
    requires |n| > 0 && AllDigits(n) && TextAt(buf, pos, ": line " + n)
    requires !IsDigit(CharAt(buf, pos + 7 + |n|))
    ensures ParseLineCol(buf, pos) == Some(LineCol(n, None))
  {
    TextAtConcat(buf, pos, ": line ", n);
    TextAtConcat(buf, pos, ": l", "ine ");
    TextAtConcat(buf, pos, ": ", "l");
    TextAtConcat(buf, pos, ":", " ");
    TextAtChar(buf, pos, ':');
    TextAtChar(buf, pos + 1, ' ');
    TextAtChar(buf, pos + 2, 'l');
    assert Substr(buf, pos + 3, pos + 7) == "ine ";
    DigitRunOf(buf, pos + 7, n);
    assert buf[pos + 7] == n[0];
  }

  /** `: LINE:` (bash) gives the line and no column. */
  lemma BashColon(buf: string, pos: nat, n: string)
    requires |n| > 0 && AllDigits(n) && TextAt(buf, pos, ": " + n + ":")
    ensures ParseLineCol(buf, pos) == Some(LineCol(n, None))
  {
    TextAtConcat(buf, pos, ": " + n, ":");
    TextAtConcat(buf, pos, ": ", n);
    TextAtConcat(buf, pos, ":", " ");
    TextAtChar(buf, pos, ':');
    TextAtChar(buf, pos + 1, ' ');
    TextAtChar(buf, pos + 2 + |n|, ':');
    assert buf[pos + 2] == n[0];
    DigitRunOf(buf, pos + 2, n);
  }

  /** `", line LINE` (a Python traceback) gives the line and no column. */
  lemma PythonLine(buf: string, pos: nat, n: string)
    requires |n| > 0 && AllDigits(n) && TextAt(buf, pos, "\", line " + n)
    requires !IsDigit(CharAt(buf, pos + 8 + |n|))
    ensures ParseLineCol(buf, pos) == Some(LineCol(n, None))
  {
    TextAtConcat(buf, pos, "\", line ", n);
    TextAtConcat(buf, pos, "\"", ", line ");
    TextAtChar(buf, pos, '"');
    assert Substr(buf, pos + 1, pos + 8) == ", line ";
    assert buf[pos + 8] == n[0];
    DigitRunOf(buf, pos + 8, n);
  }

  /** Text that starts with neither `:` nor `"` gives nothing, and so does a
      bash `: LINE` that is not closed by a colon. */
  lemma NoLineCol(buf: string, pos: nat, n: string)
    ensures CharAt(buf, pos) != ':' && CharAt(buf, pos) != '"' ==> ParseLineCol(buf, pos).None?
    ensures (|n| > 0 && AllDigits(n) && TextAt(buf, pos, ": " + n) &&
             !IsDigit(CharAt(buf, pos + 2 + |n|)) && CharAt(buf, pos + 2 + |n|) != ':') ==>
            ParseLineCol(buf, pos).None?
  {
    if |n| > 0 && AllDigits(n) && TextAt(buf, pos, ": " + n) &&
       !IsDigit(CharAt(buf, pos + 2 + |n|)) && CharAt(buf, pos + 2 + |n|) != ':' {
      TextAtConcat(buf, pos, ": ", n);
      TextAtConcat(buf, pos, ":", " ");
      TextAtChar(buf, pos, ':');
      TextAtChar(buf, pos + 1, ' ');
      assert buf[pos + 2] == n[0];
      DigitRunOf(buf, pos + 2, n);
    }
  }
}
