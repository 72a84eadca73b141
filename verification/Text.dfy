/** The string operations the modelled code relies on: decimal numbers, Python's `int(text)`,
    `str.strip`, `str.split` at one separator and `str.splitlines(keepends=True)`. */
module Text {
  import opened Wrappers

  predicate StartsWith(s: string, prefix: string) {
    |prefix| <= |s| && s[..|prefix|] == prefix
  }

  /** The text has a line break or a tab. */
  predicate HasControl(s: string) {
    '\n' in s || '\r' in s || '\t' in s
  }

  predicate IsSeparator(c: char) {
    c == '/' || c == '\\'
  }

  /** A ".." at this place, with a separator or an end of the text on either side. */
  predicate IsParent(s: string, i: int)
    requires 0 <= i < |s| - 1
  {
    && s[i] == '.' && s[i + 1] == '.'
    && (i == 0 || IsSeparator(s[i - 1])) && (i + 2 == |s| || IsSeparator(s[i + 2]))
  }

  /** ".." is a component of the path text, whichever way the slashes lean. */
  predicate HasParent(s: string) {
    exists i :: 0 <= i < |s| - 1 && IsParent(s, i)
  }

  // ---------------------------------------------------------------------------------------------
  // Decimal numbers

  function DigitChar(d: nat): char
    requires d < 10
  {
    '0' + d as char
  }

  predicate IsDigit(c: char) {
    '0' <= c <= '9'
  }

  function DigitValue(c: char): (d: nat)
    requires IsDigit(c)
    ensures d < 10 && DigitChar(d) == c
  {
    (c - '0') as nat
  }

  /** The text of a natural number, as an f-string prints it. */
  function Decimal(n: nat): (s: string)
    ensures s != "" && forall i :: 0 <= i < |s| ==> IsDigit(s[i])
  {
    if n < 10 then [DigitChar(n)] else Decimal(n / 10) + [DigitChar(n % 10)]
  }

  /** The value of a digit string in which single underscores may separate digits. */
  function DigitsValue(s: string): Option<nat> {
    if s == "" then None
    else
      var last := s[|s| - 1];
      var front := s[..|s| - 1];
      if !IsDigit(last) then None
      else if front == "" then Some(DigitValue(last))
      else
        var head := if front[|front| - 1] == '_' then front[..|front| - 1] else front;
        match DigitsValue(head)
        case None => None
        case Some(v) => Some(10 * v + DigitValue(last))
  }

  predicate IsSpace(c: char) {
    c == ' ' || '\t' <= c <= '\r' || '\U{1c}' <= c <= '\U{1f}' || c == '\U{85}' || c == '\U{a0}'
    || c == '\U{1680}' || '\U{2000}' <= c <= '\U{200a}' || c == '\U{2028}' || c == '\U{2029}'
    || c == '\U{202f}' || c == '\U{205f}' || c == '\U{3000}'
  }

  function LStrip(s: string): string {
    if s != "" && IsSpace(s[0]) then LStrip(s[1..]) else s
  }

  function RStrip(s: string): string {
    if s != "" && IsSpace(s[|s| - 1]) then RStrip(s[..|s| - 1]) else s
  }

  function Strip(s: string): string {
    RStrip(LStrip(s))
  }

  /** `s.lstrip("-")` */
  function LStripDashes(s: string): string {
    if s != "" && s[0] == '-' then LStripDashes(s[1..]) else s
  }

  /** `int(text)` on ASCII digits; None stands for ValueError. */
  function ParseInt(text: string): Option<int> {
    var s := Strip(text);
    if s == "" then None
    else if s[0] == '-' then
      match DigitsValue(s[1..]) case None => None case Some(v) => Some(0 - v as int)
    else
      match DigitsValue(if s[0] == '+' then s[1..] else s) case None => None case Some(v) => Some(v as int)
  }

  lemma {:induction false} DigitsValueOfDecimal(n: nat)
    ensures DigitsValue(Decimal(n)) == Some(n)
  {
    var s := Decimal(n);
    if n >= 10 {
      DigitsValueOfDecimal(n / 10);
      assert s[..|s| - 1] == Decimal(n / 10);
    }
  }

  lemma DigitIsNotSpace(c: char)
    requires IsDigit(c)
    ensures !IsSpace(c) && c != '-' && c != '+' && c != ' ' && c != ','
  {
  }

  lemma ParseIntOfDecimal(n: nat)
    ensures ParseInt(Decimal(n)) == Some(n)
  {
    var s := Decimal(n);
    DigitIsNotSpace(s[0]);
    DigitIsNotSpace(s[|s| - 1]);
    DigitsValueOfDecimal(n);
  }

  lemma DecimalInjective(m: nat, n: nat)
    requires Decimal(m) == Decimal(n)
    ensures m == n
  {
    DigitsValueOfDecimal(m);
    DigitsValueOfDecimal(n);
  }

  // ---------------------------------------------------------------------------------------------
  // Splitting at a separator

  /** The position of the first `c` in `s`, or |s| when there is none. */
  function IndexOf(s: string, c: char): (i: nat)
    ensures i <= |s|
    ensures forall k :: 0 <= k < i ==> s[k] != c
    ensures i < |s| ==> s[i] == c
  {
    if s == "" || s[0] == c then 0 else 1 + IndexOf(s[1..], c)
  }

  lemma IndexOfFirst(s: string, c: char, i: nat)
    requires i < |s| && s[i] == c && forall k :: 0 <= k < i ==> s[k] != c
    ensures IndexOf(s, c) == i
  {
    var j := IndexOf(s, c);
    assert !(i < j);
    assert !(j < i);
  }

  // ---------------------------------------------------------------------------------------------
  // Lines

  /** The characters at which `str.splitlines` ends a line; "\r\n" counts as one ending. */
  predicate IsLineBreak(c: char) {
    '\n' <= c <= '\r' || '\U{1c}' <= c <= '\U{1e}' || c == '\U{85}' || c == '\U{2028}' || c == '\U{2029}'
  }

  /** The length of the first line of `s`, its ending included. */
  function FirstLine(s: string): (n: nat)
    requires s != ""
    ensures 0 < n <= |s|
  {
    if s[0] == '\r' && |s| > 1 && s[1] == '\n' then 2
    else if IsLineBreak(s[0]) || |s| == 1 then 1
    else 1 + FirstLine(s[1..])
  }

  /** `s.splitlines(keepends=True)` */
  function SplitLines(s: string): seq<string> {
    if s == "" then []
    else
      var n := FirstLine(s);
      [s[..n]] + SplitLines(s[n..])
  }

  /** `"".join(lines)` */
  function Join(lines: seq<string>): string {
    if lines == [] then "" else lines[0] + Join(lines[1..])
  }

  lemma {:induction false} JoinSplitLines(s: string)
    ensures Join(SplitLines(s)) == s
  {
    if s != "" {
      var n := FirstLine(s);
      JoinSplitLines(s[n..]);
      assert SplitLines(s)[1..] == SplitLines(s[n..]);
      assert s == s[..n] + s[n..];
    }
  }

  /** A line that ends in "\n" and contains no other line ending. */
  predicate IsLine(line: string) {
    line != "" && line[|line| - 1] == '\n' && forall i :: 0 <= i < |line| - 1 ==> !IsLineBreak(line[i])
  }

  lemma {:induction false} FirstLineOf(line: string, rest: string)
    requires IsLine(line)
    ensures FirstLine(line + rest) == |line|
  {
    var s := line + rest;
    if |line| > 1 {
      assert !IsLineBreak(s[0]) by { assert s[0] == line[0]; }
      FirstLineOf(line[1..], rest);
      assert s[1..] == line[1..] + rest;
    }
  }

  lemma {:induction false} SplitLinesJoin(lines: seq<string>)
    requires forall line :: line in lines ==> IsLine(line)
    ensures SplitLines(Join(lines)) == lines
  {
    if lines != [] {
      var rest := Join(lines[1..]);
      FirstLineOf(lines[0], rest);
      SplitLinesJoin(lines[1..]);
      assert (lines[0] + rest)[|lines[0]|..] == rest;
      assert lines == [lines[0]] + lines[1..];
    }
  }

  // ---------------------------------------------------------------------------------------------
  // Joining pieces that need not be whole lines

  /** At most one line: empty, or ended only at its end if at all. */
  predicate AtMostLine(s: string) {
    s == "" || FirstLine(s) == |s|
  }

  lemma {:induction false} FirstLineAlone(s: string)
    requires s != ""
    ensures AtMostLine(s[..FirstLine(s)])
  {
    var n := FirstLine(s);
    if n > 1 && !IsLineBreak(s[0]) {
      FirstLineAlone(s[1..]);
      assert s[..n][1..] == s[1..][..n - 1];
    }
  }

  lemma {:induction false} SplitIntoLines(s: string)
    ensures forall line :: line in SplitLines(s) ==> line != "" && AtMostLine(line)
  {
    if s != "" {
      FirstLineAlone(s);
      SplitIntoLines(s[FirstLine(s)..]);
    }
  }

  /** A piece before `rest` either is its own first line or runs into the first line of `rest`. */
  lemma {:induction false} FirstLineOfPiece(a: string, rest: string)
    requires a != "" && AtMostLine(a)
    ensures FirstLine(a + rest) == |a| || (rest != "" && FirstLine(a + rest) == |a| + FirstLine(rest))
  {
    var s := a + rest;
    if |a| == 1 {
      assert s[1..] == rest;
    } else if !IsLineBreak(a[0]) {
      FirstLineOfPiece(a[1..], rest);
      assert s[1..] == a[1..] + rest;
    }
  }

  lemma SplitAfterPiece(a: string, rest: string)
    requires a != "" && AtMostLine(a)
    ensures SplitLines(a + rest) == [a] + SplitLines(rest)
         || (rest != "" && |SplitLines(a + rest)| == |SplitLines(rest)|)
  {
    FirstLineOfPiece(a, rest);
    var s := a + rest;
    if FirstLine(s) == |a| {
      assert s[..|a|] == a && s[|a|..] == rest;
    } else {
      var n := FirstLine(rest);
      assert s[|a| + n..] == rest[n..];
    }
  }

  /** Splitting joined pieces never yields more lines than there were pieces, and as many only if the
      pieces are the lines. */
  lemma {:induction false} PiecesMerge(pieces: seq<string>)
    requires forall piece :: piece in pieces ==> AtMostLine(piece)
    ensures |SplitLines(Join(pieces))| <= |pieces|
    ensures |SplitLines(Join(pieces))| == |pieces| ==> SplitLines(Join(pieces)) == pieces
  {
    if pieces != [] {
      var a, rest := pieces[0], Join(pieces[1..]);
      PiecesMerge(pieces[1..]);
      assert pieces == [a] + pieces[1..];
      if a == "" {
        assert a + rest == rest;
      } else {
        SplitAfterPiece(a, rest);
      }
    }
  }
}
