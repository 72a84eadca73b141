/** The headers of hunks in all their forms, and the simplest hunks that have them. */
module HunkHeaders {
  import opened Wrappers
  import opened Text
  import opened Hunks
  import opened HunkWriting

  /** "n,c", or only "n". */
  function RangeText(number: nat, count: Option<nat>): string {
    Decimal(number) + (match count case None => [] case Some(c) => [','] + Decimal(c))
  }

  /** "@@ -n[,c] +m[,d] @@" and whatever follows. */
  function Header(oldNumber: nat, oldCount: Option<nat>, newNumber: nat, newCount: Option<nat>, after: string): string {
    ['@', '@', ' ', '-'] + RangeText(oldNumber, oldCount)
    + ([' '] + (['+'] + RangeText(newNumber, newCount) + [' ', '@', '@'] + after))
  }

  predicate AllDashes(s: string) {
    forall i :: 0 <= i < |s| ==> s[i] == '-'
  }

  predicate NoSpace(s: string) {
    forall i :: 0 <= i < |s| ==> s[i] != ' '
  }

  lemma {:induction false} DashesAreDropped(dashes: string, token: string)
    requires AllDashes(dashes) && (token != "" ==> token[0] != '-')
    ensures LStripDashes(dashes + token) == token
  {
    if dashes == "" {
      assert dashes + token == token;
    } else {
      assert (dashes + token)[1..] == dashes[1..] + token;
      DashesAreDropped(dashes[1..], token);
    }
  }

  /** The number of a range comes before the comma, or is all of it. */
  lemma NumberOfRange(number: nat, count: Option<nat>)
    ensures var token := RangeText(number, count);
      token != "" && token[0] != '-' && NoSpace(token) && token[..IndexOf(token, ',')] == Decimal(number)
  {
    hide Decimal;
    var digits, token := Decimal(number), RangeText(number, count);
    assert token[0] == digits[0] && IsDigit(digits[0]);
    if count.Some? {
      RangeStart(digits, Decimal(count.value));
      assert token == digits + [','] + Decimal(count.value);
    } else {
      assert token == digits;
      assert forall k :: 0 <= k < |digits| ==> IsDigit(digits[k]) && digits[k] != ',';
      assert IndexOf(digits, ',') == |digits| && digits[..|digits|] == digits;
    }
  }

  lemma SecondWord(word: string, rest: string)
    requires NoSpace(word)
    ensures var header := ['@', '@', ' '] + word + ([' '] + rest);
      IndexOf(header, ' ') == 2 && header[3..][..IndexOf(header[3..], ' ')] == word
  {
    var header := ['@', '@', ' '] + word + ([' '] + rest);
    IndexOfFirst(header, ' ', 2);
    assert header[3..] == word + ([' '] + rest);
    IndexOfFirst(header[3..], ' ', |word|);
  }

  /** The old number is read from the second word, with any number of dashes before it. */
  lemma SecondWordIsRead(dashes: string, oldNumber: nat, oldCount: Option<nat>, rest: string)
    requires AllDashes(dashes)
    ensures OldStart(['@', '@', ' '] + (dashes + RangeText(oldNumber, oldCount)) + ([' '] + rest)) == Some(oldNumber)
  {
    var token := RangeText(oldNumber, oldCount);
    NumberOfRange(oldNumber, oldCount);
    DashesAreDropped(dashes, token);
    ParseIntOfDecimal(oldNumber);
    hide ParseInt, Decimal, RangeText, LStripDashes;
    var word := dashes + token;
    assert NoSpace(word);
    SecondWord(word, rest);
  }

  /** Each of the four forms is read as its old number, whatever the other numbers and the text after. */
  lemma HeaderReads(oldNumber: nat, oldCount: Option<nat>, newNumber: nat, newCount: Option<nat>, after: string)
    ensures OldStart(Header(oldNumber, oldCount, newNumber, newCount, after)) == Some(oldNumber)
  {
    hide RangeText, OldStart;
    var rest := ['+'] + RangeText(newNumber, newCount) + [' ', '@', '@'] + after;
    SecondWordIsRead("-", oldNumber, oldCount, rest);
    assert Header(oldNumber, oldCount, newNumber, newCount, after)
        == ['@', '@', ' '] + ("-" + RangeText(oldNumber, oldCount)) + ([' '] + rest);
  }

  /** The hunk that replaces one line: "@@ -n +m @@", the old line removed and the new one added. */
  function Replacement(number: nat, newNumber: nat, old_: string, new_: string): Hunk {
    [Header(number, None, newNumber, None, "\n"), ['-'] + old_, ['+'] + new_]
  }

  lemma TwoEdits(a: string, b: string)
    requires EditOf(a).Some? && EditOf(b).Some?
    ensures EditsOf([a, b]) == Some([EditOf(a).value, EditOf(b).value])
  {
    hide EditOf;
    var body, x, y := [a, b], EditOf(a).value, EditOf(b).value;
    assert body[1..] == [b] && body[1..][1..] == [];
    assert EditsOf([b][1..]) == Some([]) && [y] + [] == [y] && [x] + [y] == [x, y];
    assert EditsOf([b]) == Some([y]);
  }

  lemma ReplacementReads(number: nat, newNumber: nat, old_: string, new_: string)
    ensures BlocksOf([Replacement(number, newNumber, old_, new_)])
         == Some([Block(if number == 0 then 0 else number - 1, [Drop(old_), Add(new_)])])
  {
    hide OldStart, Header, EditsOf;
    var hunk := Replacement(number, newNumber, old_, new_);
    HeaderReads(number, None, newNumber, None, "\n");
    assert hunk[1..] == [['-'] + old_, ['+'] + new_];
    assert EditOf(['-'] + old_) == Some(Drop(old_)) && EditOf(['+'] + new_) == Some(Add(new_));
    TwoEdits(['-'] + old_, ['+'] + new_);
    OneHunk(hunk);
  }

  lemma ReplacementSides(old_: string, new_: string)
    ensures OldSide([Drop(old_), Add(new_)]) == [old_] && NewSide([Drop(old_), Add(new_)]) == [new_]
  {
    var edits := [Drop(old_), Add(new_)];
    assert edits[1..] == [Add(new_)] && edits[1..][1..] == [];
    assert OldSide(edits[1..]) == [] && NewSide(edits[1..]) == [new_];
  }

  lemma OneLineBlock(original: seq<string>, k: nat, edits: seq<Edit>, line: string)
    requires k < |original| && OldSide(edits) == [original[k]] && NewSide(edits) == [line]
    ensures Fits(original, [Block(k, edits)], 0)
    ensures Patched(original, [Block(k, edits)], 0) == original[..k] + [line] + original[k + 1..]
  {
    hide OldSide, NewSide;
    var blocks := [Block(k, edits)];
    assert blocks[1..] == [] && original[0..k] == original[..k] && original[k..k + 1] == [original[k]];
  }

  lemma LineReplaced(original: seq<string>, k: nat, line: string)
    requires k < |original|
    ensures original[..k] + [line] + original[k + 1..] == original[k := line]
  {
  }

  lemma LineFits(original: seq<string>, k: nat, line: string)
    requires k < |original|
    ensures var blocks := [Block(k, [Drop(original[k]), Add(line)])];
      Fits(original, blocks, 0) && Patched(original, blocks, 0) == original[k := line]
  {
    ReplacementSides(original[k], line);
    hide *;
    OneLineBlock(original, k, [Drop(original[k]), Add(line)], line);
    LineReplaced(original, k, line);
  }

  /** In any file that has line `number`, such a hunk replaces that line and nothing else. */
  lemma ReplacesLine(original: seq<string>, number: nat, newNumber: nat, line: string)
    requires 1 <= number <= |original|
    ensures var hunks := [Replacement(number, newNumber, original[number - 1], line)];
      HunksFit(original, hunks, 0) && HunksPatched(original, hunks, 0) == original[number - 1 := line]
  {
    hide Replacement, BlocksOf, Fits, Patched;
    ReplacementReads(number, newNumber, original[number - 1], line);
    LineFits(original, number - 1, line);
  }
}
