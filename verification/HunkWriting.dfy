/** Writing hunks as text, in particular the hunks that undo a patch. */
module HunkWriting {
  import opened Wrappers
  import opened Text
  import opened Hunks

  function EditLine(e: Edit): string {
    match e
    case Keep(c) => [' '] + c
    case Drop(c) => ['-'] + c
    case Add(c) => ['+'] + c
    case Note => ['\\', '\n']
  }

  function EditLines(edits: seq<Edit>): seq<string> {
    if edits == [] then [] else [EditLine(edits[0])] + EditLines(edits[1..])
  }

  function Range(number: nat, count: nat): string {
    Decimal(number) + [','] + Decimal(count)
  }

  /** "@@ -n,c +m,d @@" */
  function HeaderLine(oldNumber: nat, oldCount: nat, newNumber: nat, newCount: nat): string {
    ['@', '@', ' ', '-'] + Range(oldNumber, oldCount) + [' ', '+'] + Range(newNumber, newCount) + [' ', '@', '@', '\n']
  }

  function HunkText(oldNumber: nat, newNumber: nat, edits: seq<Edit>): Hunk {
    [HeaderLine(oldNumber, |OldSide(edits)|, newNumber, |NewSide(edits)|)] + EditLines(edits)
  }

  function Natural(n: int): nat {
    if n < 0 then 0 else n
  }

  function GrowthOf(edits: seq<Edit>): int {
    |NewSide(edits)| - |OldSide(edits)|
  }

  /** Blocks as hunks, numbered as the reader numbers them; `shift` is the growth so far. */
  function HunkTexts(blocks: seq<Block>, shift: int): seq<Hunk> {
    if blocks == [] then []
    else
      var b := blocks[0];
      [HunkText(b.start + 1, Natural(b.start + shift) + 1, b.edits)] + HunkTexts(blocks[1..], shift + GrowthOf(b.edits))
  }

  // ---------------------------------------------------------------------------------------------
  // Reading what was written

  lemma {:induction false} EditsOfLines(edits: seq<Edit>)
    ensures EditsOf(EditLines(edits)) == Some(edits)
  {
    if edits != [] {
      EditsOfLines(edits[1..]);
      var line := EditLine(edits[0]);
      assert EditOf(line) == Some(edits[0]);
      assert edits == [edits[0]] + edits[1..];
      assert EditLines(edits)[0] == line && EditLines(edits)[1..] == EditLines(edits[1..]);
    }
  }

  predicate Digits(s: string) {
    s != "" && forall i :: 0 <= i < |s| ==> IsDigit(s[i])
  }

  lemma RangeStart(number: string, count: string)
    requires Digits(number) && Digits(count)
    ensures var token := number + [','] + count;
      && LStripDashes(['-'] + token) == token && IndexOf(token, ',') == |number| && token[..|number|] == number
      && forall k :: 0 <= k < |token| ==> token[k] != ' '
  {
    var token := number + [','] + count;
    DigitIsNotSpace(number[0]);
    assert token[0] == number[0];
    assert (['-'] + token)[1..] == token;
    assert LStripDashes(token) == token;
    forall k | 0 <= k < |number| ensures token[k] != ',' {
      assert token[k] == number[k] && IsDigit(number[k]);
    }
    IndexOfFirst(token, ',', |number|);
    forall k | 0 <= k < |token| ensures token[k] != ' ' {
      if k < |number| {
        assert token[k] == number[k] && IsDigit(number[k]);
      } else if k > |number| {
        assert token[k] == count[k - |number| - 1] && IsDigit(count[k - |number| - 1]);
      }
    }
  }

  lemma TokenOfHeader(token: string, after: string)
    requires forall k :: 0 <= k < |token| ==> token[k] != ' '
    ensures var header := ['@', '@', ' ', '-'] + token + ([' '] + after);
      && IndexOf(header, ' ') == 2
      && IndexOf(header[3..], ' ') == 1 + |token| && header[3..][..1 + |token|] == ['-'] + token
  {
    var header := ['@', '@', ' ', '-'] + token + ([' '] + after);
    IndexOfFirst(header, ' ', 2);
    var rest := header[3..];
    forall k | 0 <= k < 1 + |token| ensures rest[k] != ' ' {
      assert k > 0 ==> rest[k] == token[k - 1];
    }
    IndexOfFirst(rest, ' ', 1 + |token|);
  }

  /** The reader finds the old number of a written header. */
  lemma HeaderNamesStart(oldNumber: nat, oldCount: nat, newNumber: nat, newCount: nat)
    ensures OldStart(HeaderLine(oldNumber, oldCount, newNumber, newCount)) == Some(oldNumber)
  {
    var number, count := Decimal(oldNumber), Decimal(oldCount);
    var after := ['+'] + Range(newNumber, newCount) + [' ', '@', '@', '\n'];
    var header := HeaderLine(oldNumber, oldCount, newNumber, newCount);
    assert header == ['@', '@', ' ', '-'] + Range(oldNumber, oldCount) + ([' '] + after);
    RangeStart(number, count);
    TokenOfHeader(Range(oldNumber, oldCount), after);
    ParseIntOfDecimal(oldNumber);
  }

  lemma BlockOfText(oldNumber: nat, newNumber: nat, edits: seq<Edit>)
    ensures BlockOf(HunkText(oldNumber, newNumber, edits)) == Some(Block(Target(oldNumber), edits))
    ensures OldStart(HunkText(oldNumber, newNumber, edits)[0]) == Some(oldNumber)
  {
    var h := HunkText(oldNumber, newNumber, edits);
    HeaderNamesStart(oldNumber, |OldSide(edits)|, newNumber, |NewSide(edits)|);
    EditsOfLines(edits);
    assert h[1..] == EditLines(edits);
  }

  lemma {:induction false} BlocksOfTexts(blocks: seq<Block>, shift: int)
    ensures BlocksOf(HunkTexts(blocks, shift)) == Some(blocks)
  {
    hide BlockOf, HunkText;
    if blocks != [] {
      var b := blocks[0];
      var next := shift + GrowthOf(b.edits);
      BlocksOfTexts(blocks[1..], next);
      BlockOfText(b.start + 1, Natural(b.start + shift) + 1, b.edits);
      var texts := HunkTexts(blocks, shift);
      assert texts[0] == HunkText(b.start + 1, Natural(b.start + shift) + 1, b.edits);
      assert texts[1..] == HunkTexts(blocks[1..], next);
      assert blocks == [b] + blocks[1..];
    }
  }

  /** The numbering of the standard names, for an empty old range, the line before it.  The reader
      takes that line's place, one line too early, unless the range is at the start of the file. */
  lemma EmptyRangeReadsEarly(b: Block, newNumber: nat)
    ensures var number := if OldSide(b.edits) == [] then b.start else b.start + 1;
      BlockOf(HunkText(number, newNumber, b.edits))
      == Some(if OldSide(b.edits) == [] && b.start > 0 then Block(b.start - 1, b.edits) else b)
  {
    BlockOfText(if OldSide(b.edits) == [] then b.start else b.start + 1, newNumber, b.edits);
  }

  /** An insertion after the first of two lines, numbered by the standard, lands before it. */
  lemma InsertionLandsEarly()
    ensures var original, hunks := ["a\n", "b\n"], [HunkText(1, 2, [Add("x\n")])];
      HunksFit(original, hunks, 0) && HunksPatched(original, hunks, 0) == ["x\n", "a\n", "b\n"]
  {
    var hunk := HunkText(1, 2, [Add("x\n")]);
    assert OldSide([Add("x\n")]) == [] && NewSide([Add("x\n")]) == ["x\n"];
    EmptyRangeReadsEarly(Block(1, [Add("x\n")]), 2);
    OneHunk(hunk);
    hide BlockOf, HunkText, BlocksOf;
    InsertedFirst(["a\n", "b\n"], "x\n");
  }

  lemma OneHunk(hunk: Hunk)
    requires BlockOf(hunk).Some?
    ensures BlocksOf([hunk]) == Some([BlockOf(hunk).value])
  {
    hide BlockOf;
    assert [hunk][1..] == [];
    assert [BlockOf(hunk).value] + [] == [BlockOf(hunk).value];
  }

  lemma InsertedFirst(original: seq<string>, line: string)
    ensures var blocks := [Block(0, [Add(line)])];
      Fits(original, blocks, 0) && Patched(original, blocks, 0) == [line] + original
  {
    var blocks := [Block(0, [Add(line)])];
    assert blocks[1..] == [] && original[0..0] == [] && original[0..] == original;
    assert OldSide([Add(line)]) == [] && NewSide([Add(line)]) == [line];
  }

  // ---------------------------------------------------------------------------------------------
  // The inverse, numbered anew

  /** The hunks that undo a patch, with the numbers of the lines they undo. */
  function InverseHunks(hunks: seq<Hunk>): seq<Hunk>
    requires BlocksOf(hunks).Some?
  {
    HunkTexts(Inverse(BlocksOf(hunks).value, 0), 0)
  }

  /** If hunks turn `original` into `out`, their inverse hunks turn `out` into `original`. */
  lemma PatchInverse(original: seq<string>, hunks: seq<Hunk>)
    requires HunksFit(original, hunks, 0)
    ensures var out := HunksPatched(original, hunks, 0);
      HunksFit(out, InverseHunks(hunks), 0) && HunksPatched(out, InverseHunks(hunks), 0) == original
  {
    var blocks := BlocksOf(hunks).value;
    ApplicableFits(original, blocks);
    InverseRestores(original, blocks);
    BlocksOfTexts(Inverse(blocks, 0), 0);
  }

  // ---------------------------------------------------------------------------------------------
  // The literal inverse: the old numbers moved by the growth so far

  /** The number in the header; nothing below zero is told apart from zero. */
  function HeaderNumber(h: Hunk): nat
    requires BlockOf(h).Some?
  {
    Natural(OldStart(h[0]).value)
  }

  lemma FirstBlock(hunks: seq<Hunk>)
    requires hunks != [] && BlocksOf(hunks).Some?
    ensures BlockOf(hunks[0]).Some? && BlocksOf(hunks[1..]).Some?
    ensures BlocksOf(hunks).value == [BlockOf(hunks[0]).value] + BlocksOf(hunks[1..]).value
    ensures BlocksOf(hunks).value[1..] == BlocksOf(hunks[1..]).value
    ensures BlockOf(hunks[0]).value.start == Target(HeaderNumber(hunks[0]))
  {
  }

  function LiteralInverse(hunks: seq<Hunk>, shift: int): seq<Hunk>
    requires BlocksOf(hunks).Some?
  {
    if hunks == [] then []
    else
      FirstBlock(hunks);
      var number, edits := HeaderNumber(hunks[0]), BlockOf(hunks[0]).value.edits;
      [HunkText(Natural(number + shift), number, Flip(edits))] + LiteralInverse(hunks[1..], shift + GrowthOf(edits))
  }

  /** The blocks that the literal inverse reads as. */
  function LiteralBlocks(hunks: seq<Hunk>, shift: int): seq<Block>
    requires BlocksOf(hunks).Some?
  {
    if hunks == [] then []
    else
      FirstBlock(hunks);
      var number, edits := HeaderNumber(hunks[0]), BlockOf(hunks[0]).value.edits;
      [Block(Target(Natural(number + shift)), Flip(edits))] + LiteralBlocks(hunks[1..], shift + GrowthOf(edits))
  }

  lemma {:induction false} LiteralReads(hunks: seq<Hunk>, shift: int)
    requires BlocksOf(hunks).Some?
    ensures BlocksOf(LiteralInverse(hunks, shift)) == Some(LiteralBlocks(hunks, shift))
  {
    hide BlockOf, HunkText, Target;
    if hunks != [] {
      FirstBlock(hunks);
      var number, edits := HeaderNumber(hunks[0]), BlockOf(hunks[0]).value.edits;
      LiteralReads(hunks[1..], shift + GrowthOf(edits));
      BlockOfText(Natural(number + shift), number, Flip(edits));
      var texts := LiteralInverse(hunks, shift);
      assert texts[0] == HunkText(Natural(number + shift), number, Flip(edits));
      assert texts[1..] == LiteralInverse(hunks[1..], shift + GrowthOf(edits));
    }
  }

  /** A hunk numbered zero comes after hunks that have made the file longer. */
  predicate ZeroAfterGrowth(hunks: seq<Hunk>, shift: int)
    requires BlocksOf(hunks).Some?
  {
    hunks != []
    && (FirstBlock(hunks);
        || (HeaderNumber(hunks[0]) == 0 && shift > 0)
        || ZeroAfterGrowth(hunks[1..], shift + GrowthOf(BlockOf(hunks[0]).value.edits)))
  }

  lemma {:induction false} LiteralIsInverse(original: seq<string>, hunks: seq<Hunk>, cursor: nat, shift: int)
    requires HunksFit(original, hunks, cursor) && cursor + shift >= 0 && !ZeroAfterGrowth(hunks, shift)
    ensures LiteralBlocks(hunks, shift) == Inverse(BlocksOf(hunks).value, shift)
  {
    if hunks != [] {
      FirstBlock(hunks);
      var b := BlockOf(hunks[0]).value;
      LiteralIsInverse(original, hunks[1..], End(b), shift + GrowthOf(b.edits));
    }
  }

  lemma {:induction false} LiteralMisses(original: seq<string>, hunks: seq<Hunk>, cursor: nat, shift: int,
                                         out: seq<string>)
    requires HunksFit(original, hunks, cursor) && cursor + shift >= 0 && ZeroAfterGrowth(hunks, shift)
    ensures !Fits(out, LiteralBlocks(hunks, shift), cursor + shift)
  {
    FirstBlock(hunks);
    var b := BlockOf(hunks[0]).value;
    var blocks := LiteralBlocks(hunks, shift);
    var next := shift + GrowthOf(b.edits);
    assert blocks[1..] == LiteralBlocks(hunks[1..], next);
    FlipSwapsSides(b.edits);
    if ZeroAfterGrowth(hunks[1..], next) && !(HeaderNumber(hunks[0]) == 0 && shift > 0) {
      LiteralMisses(original, hunks[1..], End(b), next, out);
      assert End(blocks[0]) == End(b) + next;
    }
  }

  /** Exchanging added and removed lines and moving the numbers by the growth so far undoes a patch if
      and only if no hunk numbered zero comes after growth; otherwise it does not even apply. */
  lemma LiteralInverseRestores(original: seq<string>, hunks: seq<Hunk>)
    requires HunksFit(original, hunks, 0)
    ensures var out, undo := HunksPatched(original, hunks, 0), LiteralInverse(hunks, 0);
      && (HunksFit(out, undo, 0) && HunksPatched(out, undo, 0) == original <==> !ZeroAfterGrowth(hunks, 0))
      && (HunksFit(out, undo, 0) <==> !ZeroAfterGrowth(hunks, 0))
  {
    var out, blocks := HunksPatched(original, hunks, 0), BlocksOf(hunks).value;
    LiteralReads(hunks, 0);
    if ZeroAfterGrowth(hunks, 0) {
      LiteralMisses(original, hunks, 0, 0, out);
    } else {
      LiteralIsInverse(original, hunks, 0, 0);
      ApplicableFits(original, blocks);
      InverseRestores(original, blocks);
    }
  }

  lemma TwoHunks(first: Hunk, second: Hunk)
    requires BlockOf(first).Some? && BlockOf(second).Some?
    ensures BlocksOf([first, second]) == Some([BlockOf(first).value, BlockOf(second).value])
    ensures [first, second][1..] == [second]
  {
    hide BlockOf;
    assert [first, second][1..] == [second] && [second][1..] == [];
    var a, b := BlockOf(first).value, BlockOf(second).value;
    assert [b] + [] == [b] && [a] + [b] == [a, b];
    assert BlocksOf([second][1..]) == Some([]);
    assert BlocksOf([second]) == Some([b]);
  }

  lemma TwoInsertions(a: string, b: string)
    ensures var blocks := [Block(0, [Add(a)]), Block(0, [Add(b)])];
      Fits([], blocks, 0) && Patched([], blocks, 0) == [a, b]
    ensures GrowthOf([Add(a)]) == 1
  {
    var blocks := [Block(0, [Add(a)]), Block(0, [Add(b)])];
    assert blocks[1..] == [Block(0, [Add(b)])] && blocks[1..][1..] == [];
    assert OldSide([Add(a)]) == [] && OldSide([Add(b)]) == [];
    assert NewSide([Add(a)]) == [a] && NewSide([Add(b)]) == [b];
    assert Fits([], blocks[1..], 0) && Patched([], blocks[1..], 0) == [b];
  }

  /** Two insertions numbered zero into an empty file: the literal inverse of the result is refused. */
  lemma TwoInsertionsAtZero()
    ensures var hunks := [HunkText(0, 1, [Add("a\n")]), HunkText(0, 1, [Add("b\n")])];
      && HunksFit([], hunks, 0) && HunksPatched([], hunks, 0) == ["a\n", "b\n"]
      && !HunksFit(["a\n", "b\n"], LiteralInverse(hunks, 0), 0)
  {
    var first, second := HunkText(0, 1, [Add("a\n")]), HunkText(0, 1, [Add("b\n")]);
    BlockOfText(0, 1, [Add("a\n")]);
    BlockOfText(0, 1, [Add("b\n")]);
    hide BlockOf, HunkText, LiteralInverse, BlocksOf, Fits, Patched, GrowthOf;
    TwoHunks(first, second);
    TwoInsertions("a\n", "b\n");
    assert HeaderNumber(second) == 0;
    FirstBlock([second]);
    assert ZeroAfterGrowth([second], 1);
    LiteralInverseRestores([], [first, second]);
  }
}
