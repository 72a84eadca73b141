/** Applying the hunks of a unified diff to the lines of a file, and undoing it. */
module Hunks {
  import opened Wrappers
  import opened Text

  /** A header line followed by the lines of the hunk, as text. */
  type Hunk = seq<string>

  datatype Edit =
    | Keep(content: string)
    | Drop(content: string)
    | Add(content: string)
    | Note   // a line that starts with a backslash

  /** A hunk read: the index of the original line it starts at, and its edits. */
  datatype Block = Block(start: nat, edits: seq<Edit>)

  // ---------------------------------------------------------------------------------------------
  // Reading a hunk

  function EditOf(line: string): Option<Edit> {
    if line == "" then None
    else if line[0] == '\\' then Some(Note)
    else if line[0] == ' ' then Some(Keep(line[1..]))
    else if line[0] == '-' then Some(Drop(line[1..]))
    else if line[0] == '+' then Some(Add(line[1..]))
    else None
  }

  function EditsOf(body: seq<string>): Option<seq<Edit>> {
    if body == [] then Some([])
    else
      match (EditOf(body[0]), EditsOf(body[1..]))
      case (Some(e), Some(rest)) => Some([e] + rest)
      case _ => None
  }

  /** The line number after the dash of a header such as "@@ -3,7 +3,8 @@". */
  function OldStart(header: string): Option<int> {
    var i := IndexOf(header, ' ');
    if i == |header| then None
    else
      var rest := header[i + 1..];
      var token := LStripDashes(rest[..IndexOf(rest, ' ')]);
      ParseInt(token[..IndexOf(token, ',')])
  }

  /** Line numbers start at one; zero stands for the start of the file too. */
  function Target(start: int): nat {
    if start < 1 then 0 else start - 1
  }

  function BlockOf(h: Hunk): Option<Block> {
    if h == [] then None
    else
      match (OldStart(h[0]), EditsOf(h[1..]))
      case (Some(start), Some(edits)) => Some(Block(Target(start), edits))
      case _ => None
  }

  function BlocksOf(hunks: seq<Hunk>): Option<seq<Block>> {
    if hunks == [] then Some([])
    else
      match (BlockOf(hunks[0]), BlocksOf(hunks[1..]))
      case (Some(b), Some(rest)) => Some([b] + rest)
      case _ => None
  }

  // ---------------------------------------------------------------------------------------------
  // What it means for hunks to apply

  /** Lines that a hunk expects in the original: its context and removed lines. */
  function OldSide(edits: seq<Edit>): seq<string> {
    if edits == [] then []
    else (if edits[0].Keep? || edits[0].Drop? then [edits[0].content] else []) + OldSide(edits[1..])
  }

  /** Lines that a hunk leaves behind: its context and added lines. */
  function NewSide(edits: seq<Edit>): seq<string> {
    if edits == [] then []
    else (if edits[0].Keep? || edits[0].Add? then [edits[0].content] else []) + NewSide(edits[1..])
  }

  function End(b: Block): nat {
    b.start + |OldSide(b.edits)|
  }

  predicate MatchesAt(original: seq<string>, side: seq<string>, at: nat) {
    at + |side| <= |original| && original[at..at + |side|] == side
  }

  /** Every block finds its old side at its start, and blocks are ordered and disjoint. */
  ghost predicate Applicable(original: seq<string>, blocks: seq<Block>) {
    && (forall k :: 0 <= k < |blocks| ==> MatchesAt(original, OldSide(blocks[k].edits), blocks[k].start))
    && (forall j, k :: 0 <= j < k < |blocks| ==> End(blocks[j]) <= blocks[k].start)
  }

  /** The same, read from left to right starting at `cursor`. */
  predicate Fits(original: seq<string>, blocks: seq<Block>, cursor: nat) {
    if blocks == [] then cursor <= |original|
    else
      && cursor <= blocks[0].start
      && MatchesAt(original, OldSide(blocks[0].edits), blocks[0].start)
      && Fits(original, blocks[1..], End(blocks[0]))
  }

  /** The untouched gaps interleaved with the new sides. */
  function Patched(original: seq<string>, blocks: seq<Block>, cursor: nat): seq<string>
    requires Fits(original, blocks, cursor)
  {
    if blocks == [] then original[cursor..]
    else
      original[cursor..blocks[0].start] + NewSide(blocks[0].edits) + Patched(original, blocks[1..], End(blocks[0]))
  }

  lemma {:induction false} FitsMeansApplicable(original: seq<string>, blocks: seq<Block>, cursor: nat)
    requires cursor <= |original|
    ensures Fits(original, blocks, cursor) <==>
      Applicable(original, blocks) && forall k :: 0 <= k < |blocks| ==> cursor <= blocks[k].start
  {
    if blocks != [] {
      var rest := blocks[1..];
      assert forall k :: 1 <= k < |blocks| ==> blocks[k] == rest[k - 1];
      if MatchesAt(original, OldSide(blocks[0].edits), blocks[0].start) {
        FitsMeansApplicable(original, rest, End(blocks[0]));
      }
    }
  }

  lemma ApplicableFits(original: seq<string>, blocks: seq<Block>)
    ensures Fits(original, blocks, 0) <==> Applicable(original, blocks)
  {
    FitsMeansApplicable(original, blocks, 0);
  }

  function Added(edits: seq<Edit>): nat {
    if edits == [] then 0 else (if edits[0].Add? then 1 else 0) + Added(edits[1..])
  }

  function Removed(edits: seq<Edit>): nat {
    if edits == [] then 0 else (if edits[0].Drop? then 1 else 0) + Removed(edits[1..])
  }

  /** Added minus removed lines over all blocks. */
  function Growth(blocks: seq<Block>): int {
    if blocks == [] then 0 else Added(blocks[0].edits) - Removed(blocks[0].edits) + Growth(blocks[1..])
  }

  lemma {:induction false} SideLengths(edits: seq<Edit>)
    ensures |NewSide(edits)| - |OldSide(edits)| == Added(edits) - Removed(edits)
  {
    if edits != [] {
      SideLengths(edits[1..]);
    }
  }

  lemma {:induction false} PatchedLength(original: seq<string>, blocks: seq<Block>, cursor: nat)
    requires Fits(original, blocks, cursor)
    ensures cursor <= |original|
    ensures |Patched(original, blocks, cursor)| == |original| - cursor + Growth(blocks)
  {
    if blocks != [] {
      PatchedLength(original, blocks[1..], End(blocks[0]));
      SideLengths(blocks[0].edits);
    }
  }

  // ---------------------------------------------------------------------------------------------
  // The hunk applier

  ghost predicate BodyFits(original: seq<string>, body: seq<string>, cursor: nat) {
    EditsOf(body).Some? && MatchesAt(original, OldSide(EditsOf(body).value), cursor)
  }

  lemma ShiftMatch(original: seq<string>, c: string, side: seq<string>, cursor: nat)
    ensures MatchesAt(original, [c] + side, cursor) <==>
      cursor < |original| && original[cursor] == c && MatchesAt(original, side, cursor + 1)
  {
    var whole := [c] + side;
    if cursor + |whole| <= |original| {
      var window := original[cursor..cursor + |whole|];
      assert window[1..] == original[cursor + 1..cursor + 1 + |side|];
      assert window == [window[0]] + window[1..];
      assert whole[1..] == side;
    }
  }

  /** One edit line either rules the body out or is consumed by it. */
  lemma BodyStep(original: seq<string>, body: seq<string>, cursor: nat)
    requires body != [] && cursor <= |original|
    ensures match EditOf(body[0])
      case None => !BodyFits(original, body, cursor)
      case Some(Keep(c)) => BodyFits(original, body, cursor) <==>
        cursor < |original| && original[cursor] == c && BodyFits(original, body[1..], cursor + 1)
      case Some(Drop(c)) => BodyFits(original, body, cursor) <==>
        cursor < |original| && original[cursor] == c && BodyFits(original, body[1..], cursor + 1)
      case _ => BodyFits(original, body, cursor) <==> BodyFits(original, body[1..], cursor)
  {
    var rest := EditsOf(body[1..]);
    if EditOf(body[0]).Some? && rest.Some? {
      var e := EditOf(body[0]).value;
      assert ([e] + rest.value)[1..] == rest.value;
      if e.Keep? || e.Drop? {
        ShiftMatch(original, e.content, OldSide(rest.value), cursor);
      }
    }
  }

  /** What is left of a body after `i` lines, with `output` written and the cursor at `cursor`. */
  ghost predicate BodyRest(original: seq<string>, body: seq<string>, start: nat,
                           i: nat, output: seq<string>, cursor: nat)
  {
    && i <= |body| && cursor <= |original|
    && (BodyFits(original, body, start) <==> BodyFits(original, body[i..], cursor))
    && (BodyFits(original, body, start) ==>
          && output + NewSide(EditsOf(body[i..]).value) == NewSide(EditsOf(body).value)
          && cursor + |OldSide(EditsOf(body[i..]).value)| == start + |OldSide(EditsOf(body).value)|)
  }

  lemma BodyAdvance(original: seq<string>, body: seq<string>, start: nat, i: nat, output: seq<string>, cursor: nat)
    requires i < |body| && BodyRest(original, body, start, i, output, cursor)
    ensures match EditOf(body[i])
      case None => !BodyFits(original, body, start)
      case Some(Keep(c)) => if cursor < |original| && original[cursor] == c
        then BodyRest(original, body, start, i + 1, output + [c], cursor + 1) else !BodyFits(original, body, start)
      case Some(Drop(c)) => if cursor < |original| && original[cursor] == c
        then BodyRest(original, body, start, i + 1, output, cursor + 1) else !BodyFits(original, body, start)
      case Some(Add(c)) => BodyRest(original, body, start, i + 1, output + [c], cursor)
      case Some(Note) => BodyRest(original, body, start, i + 1, output, cursor)
  {
    var rest := body[i..];
    assert rest[0] == body[i] && rest[1..] == body[i + 1..];
    BodyStep(original, rest, cursor);
  }

  /** The inner loop: the lines of one hunk applied from `start`. */
  method ApplyBody(original: seq<string>, body: seq<string>, start: nat)
    returns (r: Option<(seq<string>, nat)>)
    requires start <= |original|
    ensures r.Some? <==> BodyFits(original, body, start)
    ensures r.Some? ==> r.value.0 == NewSide(EditsOf(body).value)
    ensures r.Some? ==> r.value.1 == start + |OldSide(EditsOf(body).value)|
  {
    var output: seq<string>, cursor: nat := [], start;
    assert body[0..] == body;
    for i := 0 to |body|
      invariant BodyRest(original, body, start, i, output, cursor)
    {
      var line := body[i];
      BodyAdvance(original, body, start, i, output, cursor);
      if line != "" && line[0] == '\\' {
        continue;
      }
      var marker, content := if line == "" then "" else line[..1], if line == "" then "" else line[1..];
      if marker == " " {
        if cursor >= |original| || original[cursor] != content {
          return None;
        }
        output, cursor := output + [content], cursor + 1;
      } else if marker == "-" {
        if cursor >= |original| || original[cursor] != content {
          return None;
        }
        cursor := cursor + 1;
      } else if marker == "+" {
        output := output + [content];
      } else {
        return None;
      }
    }
    assert body[|body|..] == [];
    return Some((output, cursor));
  }

  /** The hunks can all be read, and they fit from `cursor` on. */
  ghost predicate HunksFit(original: seq<string>, hunks: seq<Hunk>, cursor: nat) {
    BlocksOf(hunks).Some? && Fits(original, BlocksOf(hunks).value, cursor)
  }

  ghost function HunksPatched(original: seq<string>, hunks: seq<Hunk>, cursor: nat): seq<string>
    requires HunksFit(original, hunks, cursor)
  {
    Patched(original, BlocksOf(hunks).value, cursor)
  }

  ghost predicate HunkFits(original: seq<string>, hunk: Hunk, cursor: nat) {
    && BlockOf(hunk).Some? && cursor <= BlockOf(hunk).value.start
    && MatchesAt(original, OldSide(BlockOf(hunk).value.edits), BlockOf(hunk).value.start)
  }

  lemma HunkStep(original: seq<string>, hunks: seq<Hunk>, cursor: nat)
    requires hunks != [] && cursor <= |original|
    ensures BlockOf(hunks[0]).None? ==> !HunksFit(original, hunks, cursor)
    ensures BlockOf(hunks[0]).Some? ==> var b := BlockOf(hunks[0]).value;
      HunksFit(original, hunks, cursor) <==>
        HunkFits(original, hunks[0], cursor) && HunksFit(original, hunks[1..], End(b))
    ensures HunksFit(original, hunks, cursor) ==> var b := BlockOf(hunks[0]).value;
      HunksPatched(original, hunks, cursor)
        == original[cursor..b.start] + NewSide(b.edits) + HunksPatched(original, hunks[1..], End(b))
  {
    var rest := BlocksOf(hunks[1..]);
    if BlockOf(hunks[0]).Some? && rest.Some? {
      var b := BlockOf(hunks[0]).value;
      assert ([b] + rest.value)[1..] == rest.value;
    }
  }

  lemma Regroup(output: seq<string>, gap: seq<string>, new_: seq<string>, rest: seq<string>)
    ensures output + (gap + new_ + rest) == (output + (gap + new_)) + rest
  {
  }

  /** One turn of the outer loop: the gap up to the hunk and its new side, and the next cursor. */
  method ApplyHunk(original: seq<string>, hunk: Hunk, cursor: nat) returns (r: Option<(seq<string>, nat)>)
    requires cursor <= |original|
    ensures r.Some? <==> HunkFits(original, hunk, cursor)
    ensures r.Some? ==> var b := BlockOf(hunk).value;
      r.value == (original[cursor..b.start] + NewSide(b.edits), End(b)) && End(b) <= |original|
  {
    if hunk == [] {
      return None;
    }
    var oldStart := OldStart(hunk[0]);
    if oldStart.None? {
      return None;
    }
    var target := Target(oldStart.value);
    if target < cursor || target > |original| {
      return None;
    }
    var applied := ApplyBody(original, hunk[1..], target);
    if applied.None? {
      return None;
    }
    return Some((original[cursor..target] + applied.value.0, applied.value.1));
  }

  /** `_apply_hunks`: None when the hunks do not apply cleanly. */
  method ApplyHunks(original: seq<string>, hunks: seq<Hunk>) returns (r: Option<seq<string>>)
    ensures r.Some? <==> HunksFit(original, hunks, 0)
    ensures r.Some? ==> r.value == HunksPatched(original, hunks, 0)
  {
    var output: seq<string>, cursor: nat := [], 0;
    for i := 0 to |hunks|
      invariant cursor <= |original|
      invariant HunksFit(original, hunks, 0) <==> HunksFit(original, hunks[i..], cursor)
      invariant HunksFit(original, hunks, 0) ==>
        HunksPatched(original, hunks, 0) == output + HunksPatched(original, hunks[i..], cursor)
    {
      HunkStep(original, hunks[i..], cursor);
      assert hunks[i..][0] == hunks[i] && hunks[i..][1..] == hunks[i + 1..];
      var applied := ApplyHunk(original, hunks[i], cursor);
      if applied.None? {
        return None;
      }
      if HunksFit(original, hunks, 0) {
        ghost var b := BlockOf(hunks[i]).value;
        Regroup(output, original[cursor..b.start], NewSide(b.edits), HunksPatched(original, hunks[i + 1..], End(b)));
      }
      output, cursor := output + applied.value.0, applied.value.1;
    }
    assert hunks[|hunks|..] == [];
    return Some(output + original[cursor..]);
  }

  /** When hunks apply, and how long the result is, in terms of every hunk at once. */
  lemma HunksApplyExactly(original: seq<string>, hunks: seq<Hunk>)
    ensures HunksFit(original, hunks, 0) <==>
      (forall k :: 0 <= k < |hunks| ==> BlockOf(hunks[k]).Some?)
      && BlocksOf(hunks).Some? && Applicable(original, BlocksOf(hunks).value)
    ensures HunksFit(original, hunks, 0) ==>
      |HunksPatched(original, hunks, 0)| == |original| + Growth(BlocksOf(hunks).value)
  {
    BlocksReadEach(hunks);
    if BlocksOf(hunks).Some? {
      ApplicableFits(original, BlocksOf(hunks).value);
      if HunksFit(original, hunks, 0) {
        PatchedLength(original, BlocksOf(hunks).value, 0);
      }
    }
  }

  lemma {:induction false} BlocksReadEach(hunks: seq<Hunk>)
    ensures BlocksOf(hunks).Some? <==> forall k :: 0 <= k < |hunks| ==> BlockOf(hunks[k]).Some?
    ensures BlocksOf(hunks).Some? ==> |BlocksOf(hunks).value| == |hunks|
    ensures BlocksOf(hunks).Some? ==>
      forall k :: 0 <= k < |hunks| ==> BlockOf(hunks[k]) == Some(BlocksOf(hunks).value[k])
  {
    if hunks != [] {
      var rest := hunks[1..];
      BlocksReadEach(rest);
      assert forall k :: 1 <= k < |hunks| ==> hunks[k] == rest[k - 1];
    }
  }

  // ---------------------------------------------------------------------------------------------
  // The inverse patch

  function FlipEdit(e: Edit): Edit {
    match e
    case Add(c) => Drop(c)
    case Drop(c) => Add(c)
    case _ => e
  }

  function Flip(edits: seq<Edit>): seq<Edit> {
    if edits == [] then [] else [FlipEdit(edits[0])] + Flip(edits[1..])
  }

  /** The same blocks with added and removed lines swapped; `shift` is the growth so far. */
  function Inverse(blocks: seq<Block>, shift: int): seq<Block> {
    if blocks == [] then []
    else
      var b := blocks[0];
      var start := b.start + shift;
      [Block(if start < 0 then 0 else start, Flip(b.edits))]
      + Inverse(blocks[1..], shift + |NewSide(b.edits)| - |OldSide(b.edits)|)
  }

  lemma {:induction false} FlipSwapsSides(edits: seq<Edit>)
    ensures OldSide(Flip(edits)) == NewSide(edits) && NewSide(Flip(edits)) == OldSide(edits)
  {
    if edits != [] {
      FlipSwapsSides(edits[1..]);
      assert Flip(edits)[1..] == Flip(edits[1..]);
    }
  }

  lemma InverseCons(blocks: seq<Block>, shift: int, start: nat, next: int)
    requires blocks != [] && start == blocks[0].start + shift
    requires next == shift + |NewSide(blocks[0].edits)| - |OldSide(blocks[0].edits)|
    ensures var inverse := Inverse(blocks, shift);
      |inverse| > 0 && inverse[0] == Block(start, Flip(blocks[0].edits)) && inverse[1..] == Inverse(blocks[1..], next)
  {
  }

  /** The first block of a patch, when the rest is known to fit. */
  lemma FitsCons(out: seq<string>, blocks: seq<Block>, before: seq<string>, gap: seq<string>, after: seq<string>,
                 rest: seq<Block>, next: nat)
    requires |blocks| > 0 && blocks[0].start == |before| + |gap|
    requires rest == blocks[1..] && next == End(blocks[0])
    requires out == before + gap + OldSide(blocks[0].edits) + after
    requires Fits(out, rest, next)
    ensures Fits(out, blocks, |before|)
    ensures Patched(out, blocks, |before|) == gap + NewSide(blocks[0].edits) + Patched(out, rest, next)
  {
    assert out[|before|..blocks[0].start] == gap;
    assert out[blocks[0].start..End(blocks[0])] == OldSide(blocks[0].edits);
  }

  lemma SplitAtBlock(original: seq<string>, b: Block, cursor: nat)
    requires cursor <= b.start && MatchesAt(original, OldSide(b.edits), b.start)
    ensures original[cursor..] == original[cursor..b.start] + OldSide(b.edits) + original[End(b)..]
  {
    var side := original[b.start..End(b)];
    assert original[cursor..] == original[cursor..b.start] + side + original[End(b)..];
  }

  /** One block undone, when the inverse of the remaining blocks already restores the rest. */
  lemma InverseStep(original: seq<string>, blocks: seq<Block>, cursor: nat, before: seq<string>,
                    next: seq<string>, tail: seq<string>, undo: seq<Block>)
    requires blocks != [] && Fits(original, blocks, cursor) && cursor <= |original|
    requires next == before + (original[cursor..blocks[0].start] + NewSide(blocks[0].edits))
    requires undo == Inverse(blocks[1..], |next| - End(blocks[0]))
    requires Fits(next + tail, undo, |next|)
    requires Patched(next + tail, undo, |next|) == original[End(blocks[0])..]
    ensures var inverse := Inverse(blocks, |before| - cursor);
      && Fits(next + tail, inverse, |before|)
      && Patched(next + tail, inverse, |before|) == original[cursor..]
  {
    var b := blocks[0];
    var gap := original[cursor..b.start];
    var inverse := Inverse(blocks, |before| - cursor);
    FlipSwapsSides(b.edits);
    InverseCons(blocks, |before| - cursor, |before| + |gap|, |next| - End(b));
    Regroup(before, gap, NewSide(b.edits), tail);
    FitsCons(next + tail, inverse, before, gap, tail, undo, |next|);
    SplitAtBlock(original, b, cursor);
  }

  /** From any point of the application: `before` is the output so far. */
  lemma {:induction false} InverseRestoresFrom(original: seq<string>, blocks: seq<Block>, cursor: nat,
                                               before: seq<string>)
    requires Fits(original, blocks, cursor)
    ensures cursor <= |original|
    ensures var out := before + Patched(original, blocks, cursor);
      var inverse := Inverse(blocks, |before| - cursor);
      Fits(out, inverse, |before|) && Patched(out, inverse, |before|) == original[cursor..]
  {
    PatchedLength(original, blocks, cursor);
    var out := before + Patched(original, blocks, cursor);
    if blocks == [] {
      assert out[|before|..] == original[cursor..];
    } else {
      var b, rest := blocks[0], blocks[1..];
      var gap := original[cursor..b.start];
      var next, tail := before + (gap + NewSide(b.edits)), Patched(original, rest, End(b));
      Regroup(before, gap, NewSide(b.edits), tail);
      InverseRestoresFrom(original, rest, End(b), next);
      InverseStep(original, blocks, cursor, before, next, tail, Inverse(rest, |next| - End(b)));
    }
  }

  /** Applying the inverse patch to a patched file gives back the original file. */
  lemma InverseRestores(original: seq<string>, blocks: seq<Block>)
    requires Applicable(original, blocks)
    ensures Fits(original, blocks, 0)
    ensures var out := Patched(original, blocks, 0);
      && Applicable(out, Inverse(blocks, 0)) && Fits(out, Inverse(blocks, 0), 0)
      && Patched(out, Inverse(blocks, 0), 0) == original
  {
    ApplicableFits(original, blocks);
    InverseRestoresFrom(original, blocks, 0, []);
    var out := Patched(original, blocks, 0);
    assert [] + out == out;
    ApplicableFits(out, Inverse(blocks, 0));
  }
}
