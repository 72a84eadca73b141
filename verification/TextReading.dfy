/** What splitting, stripping and reading numbers mean, said without saying how they are done. */
module TextReading {
  import opened Wrappers
  import opened Text

  // ---------------------------------------------------------------------------------------------
  // Lines

  /** The code points at which Python ends a line. */
  predicate EndsLine(c: char) {
    var n := c as int;
    10 <= n <= 13 || 28 <= n <= 30 || n == 133 || n == 8232 || n == 8233
  }

  /** The first line of a text: line endings only at its end, "\r\n" being one, and one there unless the
      text ends; a carriage return at the end is not followed by a line feed. */
  predicate IsFirstLine(line: string, rest: string) {
    var last := |line| - 1;
    && line != ""
    && (forall i :: 0 <= i < last && EndsLine(line[i]) ==> i == last - 1 && line[i] == '\r' && line[last] == '\n')
    && (rest != "" ==> EndsLine(line[last]) && (line[last] == '\r' ==> rest[0] != '\n'))
  }

  lemma SameBreaks(c: char)
    ensures IsLineBreak(c) <==> EndsLine(c)
  {
  }

  lemma {:induction false} FirstLineIs(line: string, rest: string)
    requires IsFirstLine(line, rest)
    ensures FirstLine(line + rest) == |line|
  {
    var s := line + rest;
    SameBreaks(line[0]);
    if |line| > 1 && !IsLineBreak(line[0]) {
      var tail := line[1..];
      assert s[1..] == tail + rest;
      forall i | 0 <= i < |tail| - 1 && EndsLine(tail[i])
        ensures i == |tail| - 2 && tail[i] == '\r' && tail[|tail| - 1] == '\n'
      {
        assert EndsLine(line[i + 1]);
      }
      FirstLineIs(tail, rest);
    } else if |line| == 1 && rest != "" {
      assert s[1] == rest[0];
    }
  }

  lemma {:induction false} FirstLineFits(s: string)
    requires s != ""
    ensures IsFirstLine(s[..FirstLine(s)], s[FirstLine(s)..])
  {
    var n := FirstLine(s);
    SameBreaks(s[0]);
    if s[0] == '\r' && |s| > 1 && s[1] == '\n' {
      SameBreaks(s[1]);
    } else if !IsLineBreak(s[0]) && |s| > 1 {
      var t := s[1..];
      FirstLineFits(t);
      var line, tail := s[..n], t[..n - 1];
      assert line == [s[0]] + tail && s[n..] == t[n - 1..];
      forall i | 0 <= i < |line| - 1 && EndsLine(line[i])
        ensures i == |line| - 2 && line[i] == '\r' && line[|line| - 1] == '\n'
      {
        assert EndsLine(tail[i - 1]);
      }
    }
  }

  /** The pieces are the lines of the text that they make up. */
  ghost predicate AreLines(lines: seq<string>) {
    lines != [] ==> IsFirstLine(lines[0], Join(lines[1..])) && AreLines(lines[1..])
  }

  /** Splitting yields the one list of lines that makes up the text. */
  lemma {:induction false} SplitIsTheLines(s: string, lines: seq<string>)
    ensures lines == SplitLines(s) <==> Join(lines) == s && AreLines(lines)
    decreases |s|, |lines|
  {
    if s == "" {
      if lines != [] && AreLines(lines) {
        assert Join(lines) != "";
      }
    } else {
      var n := FirstLine(s);
      FirstLineFits(s);
      SplitIsTheLines(s[n..], SplitLines(s[n..]));
      assert s == s[..n] + s[n..];
      assert SplitLines(s)[1..] == SplitLines(s[n..]);
      if Join(lines) == s && AreLines(lines) {
        assert lines != [];
        FirstLineIs(lines[0], Join(lines[1..]));
        assert lines[0] == s[..n] && Join(lines[1..]) == s[n..];
        SplitIsTheLines(s[n..], lines[1..]);
        assert lines == [lines[0]] + lines[1..];
      }
    }
  }

  // ---------------------------------------------------------------------------------------------
  // White space

  /** The code points that Python counts as white space. */
  predicate IsBlank(c: char) {
    var n := c as int;
    || 9 <= n <= 13 || 28 <= n <= 32 || n == 133 || n == 160 || n == 5760 || 8192 <= n <= 8202
    || n == 8232 || n == 8233 || n == 8239 || n == 8287 || n == 12288
  }

  predicate AllBlank(s: string) {
    forall i :: 0 <= i < |s| ==> IsBlank(s[i])
  }

  predicate Trimmed(s: string) {
    s != "" ==> !IsBlank(s[0]) && !IsBlank(s[|s| - 1])
  }

  lemma SameBlanks(c: char)
    ensures IsSpace(c) <==> IsBlank(c)
  {
  }

  lemma {:induction false} LStripDrops(blank: string, s: string)
    requires AllBlank(blank) && (s != "" ==> !IsBlank(s[0]))
    ensures LStrip(blank + s) == s
  {
    if blank == "" {
      assert blank + s == s;
      if s != "" { SameBlanks(s[0]); }
    } else {
      SameBlanks(blank[0]);
      assert (blank + s)[1..] == blank[1..] + s;
      LStripDrops(blank[1..], s);
    }
  }

  lemma {:induction false} RStripDrops(s: string, blank: string)
    requires AllBlank(blank) && (s != "" ==> !IsBlank(s[|s| - 1]))
    ensures RStrip(s + blank) == s
    decreases |blank|
  {
    var n := |blank| - 1;
    if blank == "" {
      assert s + blank == s;
      if s != "" { SameBlanks(s[|s| - 1]); }
    } else {
      SameBlanks(blank[n]);
      assert (s + blank)[..|s| + n] == s + blank[..n];
      RStripDrops(s, blank[..n]);
    }
  }

  /** Stripping takes the white space off both ends, and nothing else. */
  lemma StripTrims(before: string, s: string, after: string)
    requires AllBlank(before) && AllBlank(after) && Trimmed(s)
    ensures Strip(before + s + after) == s
  {
    if s == "" {
      assert before + s + after == (before + after) + "";
      LStripDrops(before + after, "");
    } else {
      assert before + s + after == before + (s + after) && (s + after)[0] == s[0];
      LStripDrops(before, s + after);
      RStripDrops(s, after);
    }
  }

  // ---------------------------------------------------------------------------------------------
  // Numbers

  /** Digits, with single underscores between them. */
  predicate Numeral(s: string) {
    && s != "" && IsDigit(s[0]) && IsDigit(s[|s| - 1])
    && forall i :: 0 < i < |s| ==> IsDigit(s[i]) || (s[i] == '_' && IsDigit(s[i - 1]))
  }

  lemma {:induction false} NumeralsAreRead(s: string)
    ensures DigitsValue(s).Some? <==> Numeral(s)
    decreases |s|
  {
    if s != "" {
      var last, front := s[|s| - 1], s[..|s| - 1];
      if IsDigit(last) && front != "" {
        var head := if front[|front| - 1] == '_' then front[..|front| - 1] else front;
        NumeralsAreRead(head);
        NumeralFront(s, head);
      }
    }
  }

  lemma NumeralFront(s: string, head: string)
    requires |s| > 1 && IsDigit(s[|s| - 1])
    requires head == if s[|s| - 2] == '_' then s[..|s| - 2] else s[..|s| - 1]
    ensures Numeral(s) <==> Numeral(head)
  {
    var n := |s|;
    if Numeral(head) {
      forall i | 0 < i < n ensures IsDigit(s[i]) || (s[i] == '_' && IsDigit(s[i - 1])) {
        if i < |head| {
          assert s[i] == head[i] && s[i - 1] == head[i - 1];
        } else {
          assert s[|head| - 1] == head[|head| - 1];
        }
      }
      assert s[0] == head[0];
    }
    if Numeral(s) {
      assert s[n - 2] == '_' ==> IsDigit(s[n - 3]);
      forall i | 0 < i < |head| ensures IsDigit(head[i]) || (head[i] == '_' && IsDigit(head[i - 1])) {
        assert s[i] == head[i] && s[i - 1] == head[i - 1];
      }
    }
  }

  function Shifted(value: Option<nat>, last: char): Option<nat>
    requires IsDigit(last)
  {
    match value case None => None case Some(v) => Some(10 * v + DigitValue(last))
  }

  lemma OneStep(s: string)
    requires |s| > 1 && IsDigit(s[|s| - 1])
    ensures var front := s[..|s| - 1];
      var head := if front[|front| - 1] == '_' then front[..|front| - 1] else front;
      DigitsValue(s) == Shifted(DigitsValue(head), s[|s| - 1])
  {
  }

  lemma LastDigit(front: string, last: char)
    requires front != "" && IsDigit(last) && front[|front| - 1] != '_'
    ensures DigitsValue(front + [last]) == Shifted(DigitsValue(front), last)
  {
    hide DigitsValue;
    var s := front + [last];
    OneStep(s);
    assert s[..|s| - 1] == front;
  }

  lemma LastAfterUnderscore(front: string, last: char)
    requires IsDigit(last)
    ensures DigitsValue(front + ['_', last]) == Shifted(DigitsValue(front), last)
  {
    hide DigitsValue;
    var s := front + ['_', last];
    OneStep(s);
    assert s[..|s| - 1] == front + ['_'] && (front + ['_'])[..|front|] == front;
  }

  /** An underscore between digits changes nothing. */
  lemma UnderscoreIsIgnored(front: string, last: char)
    requires front != "" && IsDigit(front[|front| - 1]) && IsDigit(last)
    ensures DigitsValue(front + ['_', last]) == DigitsValue(front + [last])
  {
    hide DigitsValue;
    LastDigit(front, last);
    LastAfterUnderscore(front, last);
  }

  lemma StrippedIsRead(text: string, digits: string)
    requires digits != "" && IsDigit(digits[0])
    ensures Strip(text) == digits || Strip(text) == ['+'] + digits ==>
      ParseInt(text) == match DigitsValue(digits) case None => None case Some(v) => Some(v as int)
    ensures Strip(text) == ['-'] + digits ==>
      ParseInt(text) == match DigitsValue(digits) case None => None case Some(v) => Some(-(v as int))
  {
    hide Strip, DigitsValue;
    assert (['+'] + digits)[1..] == digits && (['-'] + digits)[1..] == digits;
  }

  lemma NumeralsAreTrimmed(digits: string)
    requires Numeral(digits)
    ensures Trimmed(digits) && Trimmed(['+'] + digits) && Trimmed(['-'] + digits)
  {
    var plus, minus := ['+'] + digits, ['-'] + digits;
    assert plus[|plus| - 1] == digits[|digits| - 1] && minus[|minus| - 1] == digits[|digits| - 1];
  }

  /** White space around a number and a plus sign before it change nothing; a minus sign negates it. */
  lemma SignsAreRead(before: string, digits: string, after: string)
    requires AllBlank(before) && AllBlank(after) && DigitsValue(digits).Some?
    ensures ParseInt(before + digits + after) == Some(DigitsValue(digits).value as int)
    ensures ParseInt(before + (['+'] + digits) + after) == Some(DigitsValue(digits).value as int)
    ensures ParseInt(before + (['-'] + digits) + after) == Some(-(DigitsValue(digits).value as int))
  {
    hide ParseInt, Strip, DigitsValue, AllBlank, Trimmed;
    NumeralsAreRead(digits);
    NumeralsAreTrimmed(digits);
    StripTrims(before, digits, after);
    StripTrims(before, ['+'] + digits, after);
    StripTrims(before, ['-'] + digits, after);
    StrippedIsRead(before + digits + after, digits);
    StrippedIsRead(before + (['+'] + digits) + after, digits);
    StrippedIsRead(before + (['-'] + digits) + after, digits);
  }

  // ---------------------------------------------------------------------------------------------
  // Parent directories

  predicate Slash(c: char) {
    c as int == 47 || c as int == 92
  }

  predicate ParentBetween(s: string, before: string, after: string) {
    && s == before + ['.', '.'] + after
    && (before == "" || Slash(before[|before| - 1])) && (after == "" || Slash(after[0]))
  }

  lemma SameSlash(c: char)
    ensures IsSeparator(c) <==> Slash(c)
  {
  }

  lemma ParentFrom(s: string, before: string, after: string)
    requires ParentBetween(s, before, after)
    ensures HasParent(s)
  {
    var i := |before|;
    assert |s| == i + 2 + |after| && s[i] == '.' && s[i + 1] == '.';
    if before != "" {
      SameSlash(before[i - 1]);
      assert s[i - 1] == before[i - 1];
    }
    if after != "" {
      SameSlash(after[0]);
      assert s[i + 2] == after[0];
    }
    assert IsParent(s, i);
  }

  lemma ParentAt(s: string, i: nat)
    requires i < |s| - 1 && IsParent(s, i)
    ensures ParentBetween(s, s[..i], s[i + 2..])
  {
    var before, after := s[..i], s[i + 2..];
    assert s == before + ['.', '.'] + after;
    if i > 0 {
      SameSlash(s[i - 1]);
      assert before[|before| - 1] == s[i - 1];
    }
    if i + 2 < |s| {
      SameSlash(s[i + 2]);
    }
  }

  /** The text has ".." between slashes or ends of the text. */
  lemma ParentIsAPart(s: string)
    ensures HasParent(s) <==> exists before, after :: ParentBetween(s, before, after)
  {
    hide ParentBetween, IsParent;
    if HasParent(s) {
      var i :| 0 <= i < |s| - 1 && IsParent(s, i);
      ParentAt(s, i);
    }
    if before, after :| ParentBetween(s, before, after) {
      ParentFrom(s, before, after);
    }
  }
}
