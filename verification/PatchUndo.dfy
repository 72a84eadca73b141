/** Undoing an applied patch by applying its inverse as a patch. */
module PatchUndo {
  import opened Wrappers
  import opened Text
  import opened Hunks
  import opened HunkWriting
  import opened UnifiedDiff
  import opened PatchApply

  // ---------------------------------------------------------------------------------------------
  // One file

  function Content(e: Edit): string {
    match e case Keep(c) => c case Drop(c) => c case Add(c) => c case Note => ""
  }

  ghost predicate LineEdits(edits: seq<Edit>) {
    forall e :: e in edits ==> AtMostLine(Content(e))
  }

  ghost predicate LineBlocks(blocks: seq<Block>) {
    forall b :: b in blocks ==> LineEdits(b.edits)
  }

  ghost predicate Pieces(s: seq<string>) {
    forall piece :: piece in s ==> AtMostLine(piece)
  }

  lemma {:induction false} SidesArePieces(edits: seq<Edit>)
    requires LineEdits(edits)
    ensures Pieces(OldSide(edits)) && Pieces(NewSide(edits))
  {
    if edits != [] {
      assert edits[0] in edits;
      SidesArePieces(edits[1..]);
    }
  }

  lemma {:induction false} PatchedArePieces(original: seq<string>, blocks: seq<Block>, cursor: nat)
    requires Fits(original, blocks, cursor) && Pieces(original) && LineBlocks(blocks)
    ensures Pieces(Patched(original, blocks, cursor))
  {
    if blocks != [] {
      var b := blocks[0];
      assert b in blocks;
      SidesArePieces(b.edits);
      PatchedArePieces(original, blocks[1..], End(b));
      PiecesConcat(original[cursor..b.start], NewSide(b.edits), Patched(original, blocks[1..], End(b)));
    }
  }

  lemma PiecesConcat(a: seq<string>, b: seq<string>, c: seq<string>)
    requires Pieces(a) && Pieces(b) && Pieces(c)
    ensures Pieces(a + b + c)
  {
  }

  lemma {:induction false} FlipKeepsLines(edits: seq<Edit>)
    requires LineEdits(edits)
    ensures LineEdits(Flip(edits))
  {
    if edits != [] {
      assert edits[0] in edits;
      FlipKeepsLines(edits[1..]);
    }
  }

  lemma {:induction false} InverseKeepsLines(blocks: seq<Block>, shift: int)
    requires LineBlocks(blocks)
    ensures LineBlocks(Inverse(blocks, shift))
  {
    if blocks != [] {
      assert blocks[0] in blocks;
      FlipKeepsLines(blocks[0].edits);
      InverseKeepsLines(blocks[1..], shift + |NewSide(blocks[0].edits)| - |OldSide(blocks[0].edits)|);
    }
  }

  lemma {:induction false} InverseGrowth(blocks: seq<Block>, shift: int)
    ensures Growth(Inverse(blocks, shift)) == -Growth(blocks)
  {
    if blocks != [] {
      var edits := blocks[0].edits;
      InverseGrowth(blocks[1..], shift + |NewSide(edits)| - |OldSide(edits)|);
      FlipSwapsSides(edits);
      SideLengths(edits);
      SideLengths(Flip(edits));
      assert Inverse(blocks, shift)[1..] == Inverse(blocks[1..], shift + |NewSide(edits)| - |OldSide(edits)|);
    }
  }

  /** What the patched file holds when it is read again. */
  ghost function ReadAgain(content: string, blocks: seq<Block>): seq<string>
    requires Fits(SplitLines(content), blocks, 0)
  {
    SplitLines(Join(Patched(SplitLines(content), blocks, 0)))
  }

  /** The text written for a patched file splits into the patched lines again. */
  ghost predicate WrittenAsPatched(content: string, blocks: seq<Block>)
    requires Fits(SplitLines(content), blocks, 0)
  {
    ReadAgain(content, blocks) == Patched(SplitLines(content), blocks, 0)
  }

  ghost predicate UndoneBy(lines: seq<string>, undo: seq<Block>, content: string) {
    Fits(lines, undo, 0) && Join(Patched(lines, undo, 0)) == content
  }

  /** On the file as it was written, the inverse blocks give back the old content exactly when the
      written text splits into the patched lines. */
  lemma FileUndone(content: string, blocks: seq<Block>)
    requires Fits(SplitLines(content), blocks, 0) && LineBlocks(blocks)
    ensures UndoneBy(ReadAgain(content, blocks), Inverse(blocks, 0), content) <==> WrittenAsPatched(content, blocks)
  {
    var original, lines, undo := SplitLines(content), ReadAgain(content, blocks), Inverse(blocks, 0);
    ApplicableFits(original, blocks);
    InverseRestores(original, blocks);
    JoinSplitLines(content);
    if UndoneBy(lines, undo, content) {
      LinesNotMerged(content, blocks);
    }
  }

  /** Merged lines would be missing from the restored file. */
  lemma LinesNotMerged(content: string, blocks: seq<Block>)
    requires Fits(SplitLines(content), blocks, 0) && LineBlocks(blocks)
    requires UndoneBy(ReadAgain(content, blocks), Inverse(blocks, 0), content)
    ensures WrittenAsPatched(content, blocks)
  {
    var original, lines, undo := SplitLines(content), ReadAgain(content, blocks), Inverse(blocks, 0);
    var out := Patched(original, blocks, 0);
    SplitIntoLines(content);
    SplitIntoLines(Join(out));
    PatchedArePieces(original, blocks, 0);
    InverseKeepsLines(blocks, 0);
    PatchedArePieces(lines, undo, 0);
    PiecesMerge(out);
    PiecesMerge(Patched(lines, undo, 0));
    PatchedLength(original, blocks, 0);
    PatchedLength(lines, undo, 0);
    InverseGrowth(blocks, 0);
  }

  // ---------------------------------------------------------------------------------------------
  // A patch

  ghost predicate Readable(patches: seq<FilePatch>) {
    forall i :: 0 <= i < |patches| ==> BlocksOf(patches[i].hunks).Some?
  }

  function InversePatches(patches: seq<FilePatch>): (undo: seq<FilePatch>)
    requires forall i :: 0 <= i < |patches| ==> BlocksOf(patches[i].hunks).Some?
    ensures |undo| == |patches| && forall i :: 0 <= i < |patches| ==> undo[i] == InverseOf(patches[i])
  {
    seq(|patches|, i requires 0 <= i < |patches| => InverseOf(patches[i]))
  }

  lemma {:induction false} BlockedByOne(resolve: Resolver, files: Files, patches: seq<FilePatch>)
    ensures PatchBlocker(resolve, files, patches).None? <==>
      forall i :: 0 <= i < |patches| ==> FileBlocker(resolve, files, patches[i]).None?
  {
    hide FileBlocker;
    if patches != [] {
      BlockedByOne(resolve, files, patches[1..]);
      assert forall i :: 1 <= i < |patches| ==> patches[i] == patches[1..][i - 1];
    }
  }

  lemma {:induction false} PlannedEach(resolve: Resolver, files: Files, patches: seq<FilePatch>, i: nat)
    requires PatchBlocker(resolve, files, patches).None? && i < |patches|
    ensures FileBlocker(resolve, files, patches[i]).None?
    ensures PlannedWrites(resolve, files, patches)[i] == PlannedWrite(resolve, files, patches[i])
  {
    hide FileBlocker, PlannedWrite;
    if i > 0 {
      PlannedEach(resolve, files, patches[1..], i - 1);
    }
  }

  /** No later patch goes to the same location. */
  ghost predicate IsLast(resolve: Resolver, patches: seq<FilePatch>, i: nat)
    requires i < |patches|
  {
    forall j :: i < j < |patches| ==> resolve(patches[j].path) != resolve(patches[i].path)
  }

  lemma {:induction false} LastFor(resolve: Resolver, patches: seq<FilePatch>, i: nat) returns (k: nat)
    requires i < |patches|
    ensures k < |patches| && resolve(patches[k].path) == resolve(patches[i].path) && IsLast(resolve, patches, k)
    decreases |patches| - i
  {
    k := i;
    if !IsLast(resolve, patches, i) {
      var j :| i < j < |patches| && resolve(patches[j].path) == resolve(patches[i].path);
      k := LastFor(resolve, patches, j);
    }
  }

  lemma {:induction false} WrittenLast(resolve: Resolver, files: Files, writes: seq<Write>, i: nat)
    requires i < |writes| && resolve(writes[i].path).Some?
    requires forall j :: i < j < |writes| ==> resolve(writes[j].path) != resolve(writes[i].path)
    ensures var after, at := WriteAll(resolve, files, writes), resolve(writes[i].path).value;
      at in after && after[at] == writes[i].content
  {
    var n := |writes| - 1;
    if i < n {
      WrittenLast(resolve, files, writes[..n], i);
    }
  }

  ghost function LocationOf(resolve: Resolver, p: FilePatch): Location
    requires resolve(p.path).Some?
  {
    resolve(p.path).value
  }

  /** The writes of a patch as a change of the files: the last file patch for a location wins. */
  lemma PatchEffect(resolve: Resolver, files: Files, patches: seq<FilePatch>, after: Files)
    requires PatchBlocker(resolve, files, patches).None?
    requires after == WriteAll(resolve, files, PlannedWrites(resolve, files, patches))
    ensures forall i :: 0 <= i < |patches| ==>
      && FileBlocker(resolve, files, patches[i]).None? && LocationOf(resolve, patches[i]) in after
      && (IsLast(resolve, patches, i) ==>
            after[LocationOf(resolve, patches[i])] == PlannedWrite(resolve, files, patches[i]).content)
    ensures SameOutside(resolve, patches, after, files)
  {
    var writes := PlannedWrites(resolve, files, patches);
    forall i | 0 <= i < |patches|
      ensures FileBlocker(resolve, files, patches[i]).None? && LocationOf(resolve, patches[i]) in after
      ensures IsLast(resolve, patches, i) ==>
        after[LocationOf(resolve, patches[i])] == PlannedWrite(resolve, files, patches[i]).content
    {
      PlannedEach(resolve, files, patches, i);
      var k := LastFor(resolve, patches, i);
      WrittenLast(resolve, files, writes, k);
      if IsLast(resolve, patches, i) {
        WrittenLast(resolve, files, writes, i);
      }
    }
    forall at | forall i :: 0 <= i < |patches| ==> resolve(patches[i].path) != Some(at)
      ensures SameAt(after, files, at)
    {
      WritesStayPut(resolve, files, writes, at);
    }
  }

  /** The condition for one file of the patch. */
  ghost predicate SurvivesWriting(resolve: Resolver, files: Files, p: FilePatch)
    requires FileBlocker(resolve, files, p).None?
  {
    WrittenAsPatched(files[LocationOf(resolve, p)], BlocksOf(p.hunks).value)
  }

  ghost predicate LinePatch(p: FilePatch)
    requires BlocksOf(p.hunks).Some?
  {
    LineBlocks(BlocksOf(p.hunks).value)
  }

  lemma InverseReads(p: FilePatch)
    requires BlocksOf(p.hunks).Some?
    ensures BlocksOf(InverseHunks(p.hunks)) == Some(Inverse(BlocksOf(p.hunks).value, 0))
  {
    BlocksOfTexts(Inverse(BlocksOf(p.hunks).value, 0), 0);
  }

  function InverseOf(p: FilePatch): FilePatch
    requires BlocksOf(p.hunks).Some?
  {
    FilePatch(p.path, InverseHunks(p.hunks))
  }

  /** The inverse of one file patch would write the old content. */
  ghost predicate OneUndone(resolve: Resolver, files: Files, after: Files, p: FilePatch, undo: FilePatch)
    requires resolve(p.path).Some? && LocationOf(resolve, p) in files
  {
    && FileBlocker(resolve, after, undo).None?
    && PlannedWrite(resolve, after, undo).content == files[LocationOf(resolve, p)]
  }

  /** The inverse of one file patch, against the files as they were written. */
  lemma FilePatchUndone(resolve: Resolver, files: Files, after: Files, p: FilePatch)
    requires FileBlocker(resolve, files, p).None? && LinePatch(p) && LocationOf(resolve, p) in after
    requires after[LocationOf(resolve, p)] == PlannedWrite(resolve, files, p).content
    ensures OneUndone(resolve, files, after, p, InverseOf(p)) <==> SurvivesWriting(resolve, files, p)
  {
    InverseReads(p);
    FileUndone(files[LocationOf(resolve, p)], BlocksOf(p.hunks).value);
  }

  ghost predicate UndoesFiles(resolve: Resolver, after: Files, undo: seq<FilePatch>, files: Files) {
    PatchApplies(resolve, after, undo) && WriteAll(resolve, after, PlannedWrites(resolve, after, undo)) == files
  }

  /** The patches are to stored files, and the inverse ones to the same files. */
  ghost predicate Paired(resolve: Resolver, files: Files, patches: seq<FilePatch>, undo: seq<FilePatch>) {
    && |undo| == |patches| && patches != []
    && forall i :: 0 <= i < |patches| ==>
         undo[i].path == patches[i].path && resolve(patches[i].path).Some? && LocationOf(resolve, patches[i]) in files
  }

  lemma SameLast(resolve: Resolver, files: Files, patches: seq<FilePatch>, undo: seq<FilePatch>, i: nat)
    requires Paired(resolve, files, patches, undo) && i < |patches|
    ensures IsLast(resolve, undo, i) <==> IsLast(resolve, patches, i)
  {
  }

  /** Outside the patched locations nothing differs. */
  ghost predicate SameOutside(resolve: Resolver, patches: seq<FilePatch>, a: Files, b: Files) {
    forall at :: (forall i :: 0 <= i < |patches| ==> resolve(patches[i].path) != Some(at)) ==> SameAt(a, b, at)
  }

  lemma SameEverywhere(a: Files, b: Files)
    requires forall at :: SameAt(a, b, at)
    ensures a == b
  {
    assert forall at :: at in a.Keys <==> at in b.Keys by {
      forall at ensures at in a.Keys <==> at in b.Keys {
        assert SameAt(a, b, at);
      }
    }
    assert a.Keys == b.Keys;
    forall at | at in a ensures a[at] == b[at] {
      assert SameAt(a, b, at);
    }
  }

  /** The inverse of one file patch applies, and if no later one goes to the same file, it would write
      the old content. */
  ghost predicate UndoesOne(resolve: Resolver, files: Files, after: Files, patches: seq<FilePatch>,
                            undo: seq<FilePatch>, i: nat)
    requires Paired(resolve, files, patches, undo) && i < |patches|
  {
    if IsLast(resolve, patches, i) then OneUndone(resolve, files, after, patches[i], undo[i])
    else FileBlocker(resolve, after, undo[i]).None?
  }

  lemma AllRestored(resolve: Resolver, files: Files, after: Files, patches: seq<FilePatch>, undo: seq<FilePatch>)
    requires Paired(resolve, files, patches, undo) && SameOutside(resolve, patches, after, files)
    requires forall i :: 0 <= i < |patches| ==> UndoesOne(resolve, files, after, patches, undo, i)
    ensures UndoesFiles(resolve, after, undo, files)
  {
    hide FileBlocker, PlannedWrite, IsLast, WriteAll;
    forall i | 0 <= i < |undo| ensures FileBlocker(resolve, after, undo[i]).None? {
      assert UndoesOne(resolve, files, after, patches, undo, i);
    }
    BlockedByOne(resolve, after, undo);
    var back := WriteAll(resolve, after, PlannedWrites(resolve, after, undo));
    PatchEffect(resolve, after, undo, back);
    forall at ensures SameAt(back, files, at) {
      if i :| 0 <= i < |patches| && resolve(patches[i].path) == Some(at) {
        var k := LastFor(resolve, patches, i);
        SameLast(resolve, files, patches, undo, k);
        assert UndoesOne(resolve, files, after, patches, undo, k);
        assert LocationOf(resolve, undo[k]) == at && LocationOf(resolve, patches[k]) == at;
      } else {
        assert SameAt(after, files, at);
        assert SameAt(back, after, at);
      }
    }
    SameEverywhere(back, files);
  }

  lemma EachRestored(resolve: Resolver, files: Files, after: Files, patches: seq<FilePatch>, undo: seq<FilePatch>,
                     i: nat)
    requires Paired(resolve, files, patches, undo) && i < |patches| && UndoesFiles(resolve, after, undo, files)
    ensures UndoesOne(resolve, files, after, patches, undo, i)
  {
    hide FileBlocker, PlannedWrite, IsLast, WriteAll;
    BlockedByOne(resolve, after, undo);
    var back := WriteAll(resolve, after, PlannedWrites(resolve, after, undo));
    PatchEffect(resolve, after, undo, back);
    SameLast(resolve, files, patches, undo, i);
    assert LocationOf(resolve, undo[i]) == LocationOf(resolve, patches[i]);
  }

  /** What it takes for one file patch to be undone: the file as it was written splits into the patched
      lines, or, if a later file patch has overwritten it, the inverse applies to that one's result. */
  ghost predicate Undoable(resolve: Resolver, files: Files, after: Files, patches: seq<FilePatch>, i: nat)
    requires i < |patches| && FileBlocker(resolve, files, patches[i]).None?
  {
    if IsLast(resolve, patches, i) then SurvivesWriting(resolve, files, patches[i])
    else FileBlocker(resolve, after, InverseOf(patches[i])).None?
  }

  /** Applying the inverse patch restores all files exactly when every file patch can be undone. */
  lemma PatchUndone(resolve: Resolver, files: Files, patches: seq<FilePatch>)
    requires PatchApplies(resolve, files, patches) && Readable(patches)
    requires forall i :: 0 <= i < |patches| ==> LinePatch(patches[i])
    ensures forall i :: 0 <= i < |patches| ==> FileBlocker(resolve, files, patches[i]).None?
    ensures var after := WriteAll(resolve, files, PlannedWrites(resolve, files, patches));
      UndoesFiles(resolve, after, InversePatches(patches), files)
      <==> forall i :: 0 <= i < |patches| ==> Undoable(resolve, files, after, patches, i)
  {
    var after, undo := WriteAll(resolve, files, PlannedWrites(resolve, files, patches)), InversePatches(patches);
    PatchEffect(resolve, files, patches, after);
    hide FileBlocker, SurvivesWriting, PlannedWrite, OneUndone, UndoesFiles, IsLast, PlannedWrites, WriteAll;
    PatchesArePaired(resolve, files, patches);
    forall i | 0 <= i < |patches|
      ensures UndoesOne(resolve, files, after, patches, undo, i) <==> Undoable(resolve, files, after, patches, i)
    {
      if IsLast(resolve, patches, i) {
        FilePatchUndone(resolve, files, after, patches[i]);
      }
    }
    hide Undoable, UndoesOne;
    if UndoesFiles(resolve, after, undo, files) {
      forall i | 0 <= i < |patches| ensures UndoesOne(resolve, files, after, patches, undo, i) {
        EachRestored(resolve, files, after, patches, undo, i);
      }
    } else if forall i :: 0 <= i < |patches| ==> UndoesOne(resolve, files, after, patches, undo, i) {
      AllRestored(resolve, files, after, patches, undo);
    }
  }

  lemma PatchesArePaired(resolve: Resolver, files: Files, patches: seq<FilePatch>)
    requires PatchApplies(resolve, files, patches) && Readable(patches)
    ensures Paired(resolve, files, patches, InversePatches(patches))
  {
    BlockedByOne(resolve, files, patches);
    forall i | 0 <= i < |patches| ensures resolve(patches[i].path).Some? && LocationOf(resolve, patches[i]) in files {
      assert FileBlocker(resolve, files, patches[i]).None?;
    }
  }

  // ---------------------------------------------------------------------------------------------
  // From text to text

  function InverseText(patches: seq<FilePatch>): string
    requires forall i :: 0 <= i < |patches| ==> BlocksOf(patches[i].hunks).Some?
  {
    Join(Render(InversePatches(patches)))
  }

  lemma ContentIsPiece(line: string)
    requires AtMostLine(line) && EditOf(line).Some?
    ensures AtMostLine(Content(EditOf(line).value))
  {
    assert !IsLineBreak(line[0]) || line[1..] == "";
  }

  lemma {:induction false} EditsAreLines(body: seq<string>)
    requires Pieces(body) && EditsOf(body).Some?
    ensures LineEdits(EditsOf(body).value)
  {
    if body != [] {
      assert body[0] in body;
      ContentIsPiece(body[0]);
      assert Pieces(body[1..]);
      EditsAreLines(body[1..]);
    }
  }

  lemma {:induction false} BlocksAreLines(hunks: seq<Hunk>)
    requires (forall h :: h in hunks ==> Pieces(h)) && BlocksOf(hunks).Some?
    ensures LineBlocks(BlocksOf(hunks).value)
  {
    hide OldStart, EditsOf, LineEdits, Pieces;
    if hunks != [] {
      FirstBlock(hunks);
      var h := hunks[0];
      assert Pieces(h[1..]) by { TailIsPieces(h); }
      BlockEdits(h);
      EditsAreLines(h[1..]);
      BlocksAreLines(hunks[1..]);
    }
  }

  lemma TailIsPieces(h: seq<string>)
    requires Pieces(h) && h != []
    ensures Pieces(h[1..])
  {
  }

  lemma BlockEdits(h: Hunk)
    requires BlockOf(h).Some?
    ensures h != [] && EditsOf(h[1..]) == Some(BlockOf(h).value.edits)
  {
  }

  /** Patches read from text hold lines, and their paths survive writing. */
  lemma ParsedAreLines(text: string)
    ensures var patches := ParsedPatches(SplitLines(text));
      forall k :: 0 <= k < |patches| ==>
        QuietPath(patches[k].path) && (BlocksOf(patches[k].hunks).Some? ==> LinePatch(patches[k]))
  {
    var lines := SplitLines(text);
    if ReadPatches(lines).Some? {
      SplitIntoLines(text);
      PatchesFromLines(lines);
      var patches := ParsedPatches(lines);
      forall k | 0 <= k < |patches|
        ensures QuietPath(patches[k].path) && (BlocksOf(patches[k].hunks).Some? ==> LinePatch(patches[k]))
      {
        assert FromLines(lines, patches[k]);
        ParsedIsLines(lines, patches[k]);
      }
    }
  }

  lemma ParsedIsLines(lines: seq<string>, p: FilePatch)
    requires FromLines(lines, p) && Pieces(lines)
    ensures QuietPath(p.path) && (BlocksOf(p.hunks).Some? ==> LinePatch(p))
  {
    var header :| header in lines && IsNewHeader(header) && p.path == PathOf(header);
    PathQuiet(header);
    forall h | h in p.hunks ensures Pieces(h) {
      var k :| 0 <= k < |p.hunks| && p.hunks[k] == h;
    }
    if BlocksOf(p.hunks).Some? {
      BlocksAreLines(p.hunks);
    }
  }

  /** An added line that starts with "-- " becomes, when it is removed, a line like an old-file header. */
  ghost predicate AddsDashes(edits: seq<Edit>) {
    exists i :: 0 <= i < |edits| && edits[i].Add? && StartsWith(edits[i].content, "-- ")
  }

  lemma {:induction false} FlipAt(edits: seq<Edit>)
    ensures |Flip(edits)| == |edits| && forall i :: 0 <= i < |edits| ==> Flip(edits)[i] == FlipEdit(edits[i])
  {
    if edits != [] {
      FlipAt(edits[1..]);
    }
  }

  lemma FlippedIsQuiet(oldNumber: nat, newNumber: nat, edits: seq<Edit>)
    ensures QuietHunk(HunkText(oldNumber, newNumber, Flip(edits))) <==> !AddsDashes(edits)
  {
    hide HunkText, QuietHunk, StartsWith;
    FlipAt(edits);
    WrittenHunksAreQuiet(oldNumber, newNumber, Flip(edits));
  }

  ghost predicate AllQuiet(hunks: seq<Hunk>) {
    forall k :: 0 <= k < |hunks| ==> QuietHunk(hunks[k])
  }

  ghost predicate NoneAddsDashes(blocks: seq<Block>) {
    forall k :: 0 <= k < |blocks| ==> !AddsDashes(blocks[k].edits)
  }

  lemma QuietCons(h: Hunk, hunks: seq<Hunk>)
    ensures AllQuiet([h] + hunks) <==> QuietHunk(h) && AllQuiet(hunks)
  {
    assert ([h] + hunks)[0] == h;
    assert forall k :: 0 <= k < |hunks| ==> hunks[k] == ([h] + hunks)[k + 1];
  }

  lemma DashesCons(blocks: seq<Block>)
    requires blocks != []
    ensures NoneAddsDashes(blocks) <==> !AddsDashes(blocks[0].edits) && NoneAddsDashes(blocks[1..])
  {
    assert forall k :: 0 <= k < |blocks| - 1 ==> blocks[1..][k] == blocks[k + 1];
  }

  lemma {:induction false} InverseTextsQuiet(blocks: seq<Block>, shift: int, growth: int)
    ensures AllQuiet(HunkTexts(Inverse(blocks, shift), growth)) <==> NoneAddsDashes(blocks)
  {
    hide QuietHunk, AddsDashes, HunkText, AllQuiet, NoneAddsDashes, Flip;
    if blocks != [] {
      var edits := blocks[0].edits;
      var inverse := Inverse(blocks, shift);
      var next := shift + |NewSide(edits)| - |OldSide(edits)|;
      assert inverse[1..] == Inverse(blocks[1..], next);
      InverseTextsQuiet(blocks[1..], next, growth + GrowthOf(inverse[0].edits));
      var first := HunkText(inverse[0].start + 1, Natural(inverse[0].start + growth) + 1, inverse[0].edits);
      FlippedIsQuiet(inverse[0].start + 1, Natural(inverse[0].start + growth) + 1, edits);
      QuietCons(first, HunkTexts(inverse[1..], growth + GrowthOf(inverse[0].edits)));
      DashesCons(blocks);
    } else {
      NothingToRead();
    }
  }

  lemma NothingToRead()
    ensures AllQuiet([]) && NoneAddsDashes([])
  {
  }

  /** The text of the inverse patch reads as the inverse patch exactly when no patch adds a line that
      starts with "-- " and the text splits into the lines that were written. */
  lemma InverseTextReads(patches: seq<FilePatch>)
    requires Readable(patches) && forall k :: 0 <= k < |patches| ==> QuietPath(patches[k].path)
    ensures ParsedPatches(SplitLines(InverseText(patches))) == InversePatches(patches) <==>
      && (forall k :: 0 <= k < |patches| ==> NoneAddsDashes(BlocksOf(patches[k].hunks).value))
      && SplitLines(InverseText(patches)) == Render(InversePatches(patches))
  {
    var undo := InversePatches(patches);
    ParserLeftInverse(undo);
    hide AddsDashes, QuietHunk, QuietPath, NoneAddsDashes;
    forall k | 0 <= k < |patches| ensures Quiet(undo[k]) <==> NoneAddsDashes(BlocksOf(patches[k].hunks).value) {
      InverseTextsQuiet(BlocksOf(patches[k].hunks).value, 0, 0);
    }
  }

  /** The text of the inverse patch is read as the inverse patch. */
  ghost predicate InverseIsRead(patches: seq<FilePatch>)
    requires Readable(patches)
  {
    && (forall k :: 0 <= k < |patches| ==> NoneAddsDashes(BlocksOf(patches[k].hunks).value))
    && SplitLines(InverseText(patches)) == Render(InversePatches(patches))
  }

  /** A patch that applies can be undone by text: if the text of its inverse is read as the inverse, then
      applying that text to the patched files restores them all exactly when every file patch can be
      undone. */
  lemma DiffUndone(resolve: Resolver, files: Files, text: string)
    requires PatchApplies(resolve, files, ParsedPatches(SplitLines(text)))
    ensures var patches := ParsedPatches(SplitLines(text));
      var after := WriteAll(resolve, files, PlannedWrites(resolve, files, patches));
      && Readable(patches) && (forall k :: 0 <= k < |patches| ==> FileBlocker(resolve, files, patches[k]).None?)
      && (InverseIsRead(patches) ==>
            (UndoesFiles(resolve, after, ParsedPatches(SplitLines(InverseText(patches))), files)
             <==> forall k :: 0 <= k < |patches| ==> Undoable(resolve, files, after, patches, k)))
  {
    var patches := ParsedPatches(SplitLines(text));
    BlockedByOne(resolve, files, patches);
    ParsedAreLines(text);
    hide Undoable, LinePatch, UndoesFiles, NoneAddsDashes, PlannedWrites, WriteAll, QuietPath, InverseText;
    InverseTextReads(patches);
    PatchUndone(resolve, files, patches);
  }

  // ---------------------------------------------------------------------------------------------
  // How undoing fails

  /** A line added after another. */
  function Following(line: string, added: string): seq<Edit> {
    [Keep(line), Add(added)]
  }

  lemma FollowingSides(line: string, added: string)
    ensures OldSide(Following(line, added)) == [line] && NewSide(Following(line, added)) == [line, added]
  {
    var edits := Following(line, added);
    assert edits[1..] == [Add(added)] && edits[1..][1..] == [];
    assert OldSide(edits[1..]) == [] && NewSide(edits[1..]) == [added];
  }

  lemma FollowingPatched(line: string, added: string)
    ensures var blocks := [Block(0, Following(line, added))];
      Fits([line], blocks, 0) && Patched([line], blocks, 0) == [line, added]
  {
    hide Following;
    FollowingSides(line, added);
    var blocks := [Block(0, Following(line, added))];
    assert blocks[1..] == [] && [line][0..0] == [] && [line][1..] == [] && [line][0..1] == [line];
    assert End(blocks[0]) == 1;
  }

  lemma OpenLineText()
    ensures SplitLines("a") == ["a"] && Join(["a", "b\n"]) == "ab\n" && SplitLines("ab\n") == ["ab\n"]
  {
    var lines := ["a", "b\n"];
    assert lines[1..] == ["b\n"] && lines[1..][1..] == [];
    assert Join(lines[1..]) == "b\n" + "" && Join(lines) == "a" + Join(lines[1..]);
    assert "ab\n"[1..] == "b\n" && "b\n"[1..] == "\n";
    assert FirstLine("\n") == 1 && FirstLine("b\n") == 2 && FirstLine("ab\n") == 3;
    assert "ab\n"[..3] == "ab\n" && "ab\n"[3..] == "";
    assert FirstLine("a") == 1 && "a"[..1] == "a" && "a"[1..] == "";
  }

  lemma OpenLineIsPiece()
    ensures AtMostLine("a") && AtMostLine("b\n")
  {
    assert FirstLine("a") == 1 && "b\n"[1..] == "\n" && FirstLine("\n") == 1 && FirstLine("b\n") == 2;
  }

  function OpenLinePatch(): FilePatch {
    FilePatch("f", [HunkText(1, 1, Following("a", "b\n"))])
  }

  lemma OpenLineBlocks()
    ensures BlocksOf(OpenLinePatch().hunks) == Some([Block(0, Following("a", "b\n"))])
  {
    hide HunkText, BlockOf;
    BlockOfText(1, 1, Following("a", "b\n"));
    OneHunk(HunkText(1, 1, Following("a", "b\n")));
  }

  lemma OpenLineMerges(resolve: Resolver, files: Files, p: FilePatch)
    requires p == OpenLinePatch() && resolve(p.path).Some? && !StartsWith(p.path, "/")
    requires LocationOf(resolve, p) in files && files[LocationOf(resolve, p)] == "a"
    ensures FileBlocker(resolve, files, p).None? && !SurvivesWriting(resolve, files, p) && LinePatch(p)
  {
    hide OpenLinePatch, BlocksOf, Fits, Patched, SplitLines, Join, StartsWith, AtMostLine;
    OpenLineBlocks();
    OpenLineText();
    OpenLineIsPiece();
    FollowingPatched("a", "b\n");
  }

  lemma RelativeName()
    ensures !StartsWith("f", "/")
  {
    assert "f"[..1][0] == 'f';
  }

  /** Adding a line after a last line without an ending merges the two in the written file: the patch
      applies, and its inverse does not undo it. */
  lemma OpenLineIsLost()
    ensures var resolve: Resolver, files: Files := (path: string) => Some(path), map["f" := "a"];
      var patches := [OpenLinePatch()];
      && PatchApplies(resolve, files, patches) && Readable(patches)
      && !UndoesFiles(resolve, WriteAll(resolve, files, PlannedWrites(resolve, files, patches)),
                      InversePatches(patches), files)
  {
    var resolve: Resolver, files: Files := (path: string) => Some(path), map["f" := "a"];
    var patches := [OpenLinePatch()];
    RelativeName();
    OpenLineMerges(resolve, files, OpenLinePatch());
    OpenLineBlocks();
    hide OpenLinePatch, FileBlocker, SurvivesWriting, LinePatch, BlocksOf, UndoesFiles, PlannedWrites, WriteAll;
    BlockedByOne(resolve, files, patches);
    PatchUndone(resolve, files, patches);
    assert IsLast(resolve, patches, 0);
    assert !Undoable(resolve, files, WriteAll(resolve, files, PlannedWrites(resolve, files, patches)), patches, 0);
  }

  /** A patch that adds the line "-- x": in the text of its inverse the removed line reads as the header
      of a file. */
  lemma AddedDashesAreMisread()
    ensures var patches := [FilePatch("f", [HunkText(1, 1, [Add("-- x\n")])])];
      Readable(patches) && ParsedPatches(SplitLines(InverseText(patches))) != InversePatches(patches)
  {
    var edits, hunk := [Add("-- x\n")], HunkText(1, 1, [Add("-- x\n")]);
    var patches := [FilePatch("f", [hunk])];
    hide HunkText, BlockOf, InverseText;
    BlockOfText(1, 1, edits);
    OneHunk(hunk);
    assert "-- x\n"[..3] == "-- ";
    assert AddsDashes(edits) by { assert edits[0].Add? && StartsWith(edits[0].content, "-- "); }
    var blocks := BlocksOf(patches[0].hunks).value;
    assert !NoneAddsDashes(blocks) by { assert blocks[0].edits == edits; }
    InverseTextReads(patches);
  }
}
