/** Reading a unified diff: file headers, hunks, and the rendering that reading undoes. */
module UnifiedDiff {
  import opened Wrappers
  import opened Text
  import opened Hunks
  import opened HunkWriting

  datatype FilePatch = FilePatch(path: string, hunks: seq<Hunk>)

  predicate IsOldHeader(line: string) {
    StartsWith(line, "--- ")
  }

  predicate IsNewHeader(line: string) {
    StartsWith(line, "+++ ")
  }

  predicate IsHunkHeader(line: string) {
    StartsWith(line, "@@")
  }

  /** A line that continues the hunk it is in. */
  predicate Continues(line: string) {
    !IsHunkHeader(line) && !IsOldHeader(line)
  }

  function CleanPath(path: string): string {
    if StartsWith(path, "b/") || StartsWith(path, "a/") then path[2..] else path
  }

  function PathOf(header: string): string
    requires IsNewHeader(header)
  {
    CleanPath(Strip(header[4..]))
  }

  // ---------------------------------------------------------------------------------------------
  // What the parser computes, on the lines still to be read

  /** How many leading lines continue the current hunk. */
  function Span(lines: seq<string>): (n: nat)
    ensures n <= |lines|
  {
    if lines == [] || !Continues(lines[0]) then 0 else 1 + Span(lines[1..])
  }

  function ReadHunks(lines: seq<string>): (r: (seq<Hunk>, seq<string>))
    ensures |r.1| <= |lines|
    decreases |lines|
  {
    if lines == [] || IsOldHeader(lines[0]) then ([], lines)
    else if IsHunkHeader(lines[0]) then
      var n := 1 + Span(lines[1..]);
      var (hunks, rest) := ReadHunks(lines[n..]);
      ([lines[..n]] + hunks, rest)
    else ReadHunks(lines[1..])
  }

  /** None when an old-file header is not followed by a new-file header. */
  function ReadPatches(lines: seq<string>): Option<seq<FilePatch>>
    decreases |lines|
  {
    if lines == [] then Some([])
    else if !IsOldHeader(lines[0]) then ReadPatches(lines[1..])
    else if |lines| < 2 || !IsNewHeader(lines[1]) then None
    else
      var (hunks, rest) := ReadHunks(lines[2..]);
      match ReadPatches(rest)
      case None => None
      case Some(patches) => Some([FilePatch(PathOf(lines[1]), hunks)] + patches)
  }

  function ParsedPatches(lines: seq<string>): seq<FilePatch> {
    match ReadPatches(lines) case None => [] case Some(patches) => patches
  }

  // ---------------------------------------------------------------------------------------------
  // The parser

  method ReadHunk(lines: seq<string>, start: nat) returns (hunk: Hunk, index: nat)
    requires start < |lines|
    ensures index == start + 1 + Span(lines[start + 1..]) && index <= |lines|
    ensures hunk == lines[start..index]
  {
    hunk, index := [lines[start]], start + 1;
    while index < |lines| && !IsHunkHeader(lines[index]) && !IsOldHeader(lines[index])
      invariant start < index <= |lines|
      invariant hunk == lines[start..index]
      invariant start + 1 + Span(lines[start + 1..]) == index + Span(lines[index..])
    {
      assert lines[index..][0] == lines[index] && lines[index..][1..] == lines[index + 1..];
      hunk := hunk + [lines[index]];
      index := index + 1;
    }
  }

  ghost function WithHunks(hunks: seq<Hunk>, r: (seq<Hunk>, seq<string>)): (seq<Hunk>, seq<string>) {
    (hunks + r.0, r.1)
  }

  lemma WithOneMore(hunks: seq<Hunk>, hunk: Hunk, r: (seq<Hunk>, seq<string>))
    ensures WithHunks(hunks, WithHunks([hunk], r)) == WithHunks(hunks + [hunk], r)
  {
    assert hunks + ([hunk] + r.0) == hunks + [hunk] + r.0;
  }

  lemma ReadHunksAt(lines: seq<string>, index: nat)
    requires index < |lines| && !IsOldHeader(lines[index])
    ensures IsHunkHeader(lines[index]) ==>
      var end := index + 1 + Span(lines[index + 1..]);
      ReadHunks(lines[index..]) == WithHunks([lines[index..end]], ReadHunks(lines[end..]))
    ensures !IsHunkHeader(lines[index]) ==> ReadHunks(lines[index..]) == ReadHunks(lines[index + 1..])
  {
    var rest := lines[index..];
    assert rest[0] == lines[index] && rest[1..] == lines[index + 1..];
    var n := 1 + Span(rest[1..]);
    assert rest[..n] == lines[index..index + n] && rest[n..] == lines[index + n..];
  }

  method ReadFileHunks(lines: seq<string>, start: nat) returns (hunks: seq<Hunk>, index: nat)
    requires start <= |lines|
    ensures start <= index <= |lines|
    ensures ReadHunks(lines[start..]) == (hunks, lines[index..])
  {
    hunks, index := [], start;
    assert [] + ReadHunks(lines[start..]).0 == ReadHunks(lines[start..]).0;
    while index < |lines| && !IsOldHeader(lines[index])
      invariant start <= index <= |lines|
      invariant ReadHunks(lines[start..]) == WithHunks(hunks, ReadHunks(lines[index..]))
    {
      ReadHunksAt(lines, index);
      if IsHunkHeader(lines[index]) {
        var hunk;
        hunk, index := ReadHunk(lines, index);
        WithOneMore(hunks, hunk, ReadHunks(lines[index..]));
        hunks := hunks + [hunk];
      } else {
        index := index + 1;
      }
    }
    assert ReadHunks(lines[index..]) == ([], lines[index..]) && hunks + [] == hunks;
  }

  ghost function Prepend(patches: seq<FilePatch>, rest: Option<seq<FilePatch>>): Option<seq<FilePatch>> {
    match rest case None => None case Some(more) => Some(patches + more)
  }

  lemma PrependNothing(rest: Option<seq<FilePatch>>)
    ensures Prepend([], rest) == rest
  {
    if rest.Some? {
      assert [] + rest.value == rest.value;
    }
  }

  lemma PrependOne(patches: seq<FilePatch>, p: FilePatch, rest: Option<seq<FilePatch>>)
    ensures Prepend(patches, Prepend([p], rest)) == Prepend(patches + [p], rest)
  {
    if rest.Some? {
      assert patches + ([p] + rest.value) == patches + [p] + rest.value;
    }
  }

  /** `_parse_unified_diff`; the empty list also reports a malformed file header. */
  method ParseUnifiedDiff(patchText: string) returns (patches: seq<FilePatch>)
    ensures patches == ParsedPatches(SplitLines(patchText))
  {
    var lines := SplitLines(patchText);
    patches := [];
    var index: nat := 0;
    assert lines[0..] == lines;
    PrependNothing(ReadPatches(lines));
    while index < |lines|
      invariant index <= |lines|
      invariant ReadPatches(lines) == Prepend(patches, ReadPatches(lines[index..]))
      decreases |lines| - index
    {
      var rest := lines[index..];
      assert rest[0] == lines[index] && rest[1..] == lines[index + 1..];
      if !IsOldHeader(lines[index]) {
        index := index + 1;
        continue;
      }
      index := index + 1;
      if index >= |lines| || !IsNewHeader(lines[index]) {
        return [];
      }
      assert rest[1] == lines[index] && rest[2..] == lines[index + 1..];
      var path := PathOf(lines[index]);
      index := index + 1;
      var hunks;
      hunks, index := ReadFileHunks(lines, index);
      PrependOne(patches, FilePatch(path, hunks), ReadPatches(lines[index..]));
      patches := patches + [FilePatch(path, hunks)];
    }
    assert lines[index..] == [];
  }

  // ---------------------------------------------------------------------------------------------
  // Rendering

  function Flatten(hunks: seq<Hunk>): seq<string> {
    if hunks == [] then [] else hunks[0] + Flatten(hunks[1..])
  }

  function OldHeader(path: string): string {
    ['-', '-', '-', ' ', 'a', '/'] + path + ['\n']
  }

  function NewHeader(path: string): string {
    ['+', '+', '+', ' ', 'b', '/'] + path + ['\n']
  }

  /** Plain unified-diff form. */
  function Render(patches: seq<FilePatch>): seq<string> {
    if patches == [] then []
    else [OldHeader(patches[0].path), NewHeader(patches[0].path)] + Flatten(patches[0].hunks) + Render(patches[1..])
  }

  /** A hunk that starts with its header and whose other lines cannot be mistaken for headers. */
  ghost predicate QuietHunk(h: Hunk) {
    |h| > 0 && IsHunkHeader(h[0]) && forall i :: 1 <= i < |h| ==> Continues(h[i])
  }

  ghost predicate QuietPath(path: string) {
    path != "" ==> !IsSpace(path[|path| - 1])
  }

  ghost predicate Quiet(p: FilePatch) {
    QuietPath(p.path) && forall k :: 0 <= k < |p.hunks| ==> QuietHunk(p.hunks[k])
  }

  lemma {:induction false} SpanOfContinuing(h: seq<string>, after: seq<string>)
    requires forall i :: 0 <= i < |h| ==> Continues(h[i])
    requires after != [] ==> !Continues(after[0])
    ensures Span(h + after) == |h|
  {
    if h == [] {
      assert h + after == after;
    } else {
      assert (h + after)[1..] == h[1..] + after;
      SpanOfContinuing(h[1..], after);
    }
  }

  lemma ReadOneHunk(h: Hunk, rest: seq<string>)
    requires QuietHunk(h) && (rest != [] ==> !Continues(rest[0]))
    ensures ReadHunks(h + rest) == WithHunks([h], ReadHunks(rest))
  {
    var lines := h + rest;
    assert lines[1..] == h[1..] + rest;
    SpanOfContinuing(h[1..], rest);
    HeadersDiffer(h[0]);
    assert lines[..|h|] == h && lines[|h|..] == rest;
  }

  lemma {:induction false} ReadFlattened(hunks: seq<Hunk>, after: seq<string>)
    requires forall k :: 0 <= k < |hunks| ==> QuietHunk(hunks[k])
    requires after != [] ==> IsOldHeader(after[0])
    ensures ReadHunks(Flatten(hunks) + after) == (hunks, after)
  {
    hide StartsWith, IsHunkHeader, IsOldHeader, Span;
    if hunks == [] {
      assert Flatten(hunks) + after == after;
    } else {
      var h, rest := hunks[0], Flatten(hunks[1..]) + after;
      assert Flatten(hunks) + after == h + rest;
      ReadFlattened(hunks[1..], after);
      if hunks[1..] != [] {
        assert QuietHunk(hunks[1]) && rest[0] == hunks[1][0];
      }
      ReadOneHunk(h, rest);
      assert hunks == [h] + hunks[1..];
    }
  }

  lemma HeadersDiffer(line: string)
    requires IsHunkHeader(line)
    ensures !IsOldHeader(line)
  {
    assert line[0] == line[..2][0] == '@';
    assert |line| >= 4 ==> line[..4][0] == '@';
  }

  lemma RStripEnd(s: string)
    requires s != "" && !IsSpace(s[|s| - 1])
    ensures RStrip(s + ['\n']) == s
  {
    var t := s + ['\n'];
    assert t[..|t| - 1] == s;
    assert RStrip(s) == s;
  }

  lemma RenderedPath(path: string)
    requires QuietPath(path)
    ensures IsNewHeader(NewHeader(path)) && PathOf(NewHeader(path)) == path
    ensures IsOldHeader(OldHeader(path))
  {
    var header := NewHeader(path);
    assert header[..4] == "+++ " && OldHeader(path)[..4] == "--- ";
    var stripped := ['b', '/'] + path;
    assert header[4..] == stripped + ['\n'];
    assert LStrip(stripped + ['\n']) == stripped + ['\n'];
    RStripEnd(stripped);
    assert stripped[..2] == "b/" && stripped[2..] == path;
  }

  lemma RenderStartsWithHeader(patches: seq<FilePatch>)
    requires patches != []
    ensures Render(patches)[0] == OldHeader(patches[0].path)
    ensures IsOldHeader(Render(patches)[0])
  {
    assert OldHeader(patches[0].path)[..4] == "--- ";
  }

  lemma ReadAfterHeaders(lines: seq<string>, old_: string, new_: string, after: seq<string>)
    requires IsOldHeader(old_) && IsNewHeader(new_)
    requires |lines| == 2 + |after| && lines[0] == old_ && lines[1] == new_ && lines[2..] == after
    ensures ReadPatches(lines)
         == Prepend([FilePatch(PathOf(new_), ReadHunks(after).0)], ReadPatches(ReadHunks(after).1))
  {
  }

  lemma ReadFirstPatch(p: FilePatch, lines: seq<string>, rest: seq<string>)
    requires Quiet(p) && (rest != [] ==> IsOldHeader(rest[0]))
    requires lines == [OldHeader(p.path), NewHeader(p.path)] + Flatten(p.hunks) + rest
    ensures ReadPatches(lines) == Prepend([p], ReadPatches(rest))
  {
    hide StartsWith, IsOldHeader, IsNewHeader, ReadHunks, ReadPatches, QuietHunk, PathOf, OldHeader, NewHeader;
    RenderedPath(p.path);
    ReadFlattened(p.hunks, rest);
    ReadAfterHeaders(lines, OldHeader(p.path), NewHeader(p.path), Flatten(p.hunks) + rest);
  }

  lemma {:induction false} ReadRendered(patches: seq<FilePatch>)
    requires forall k :: 0 <= k < |patches| ==> Quiet(patches[k])
    ensures ReadPatches(Render(patches)) == Some(patches)
  {
    if patches != [] {
      ReadRendered(patches[1..]);
      if patches[1..] != [] {
        RenderStartsWithHeader(patches[1..]);
      }
      ReadFirstPatch(patches[0], Render(patches), Render(patches[1..]));
      assert patches == [patches[0]] + patches[1..];
    }
  }

  // ---------------------------------------------------------------------------------------------
  // Whatever is read is quiet

  lemma {:induction false} SpanContinues(lines: seq<string>)
    ensures forall i :: 0 <= i < Span(lines) ==> Continues(lines[i])
  {
    if lines != [] && Continues(lines[0]) {
      SpanContinues(lines[1..]);
      assert forall i :: 1 <= i < Span(lines) ==> lines[i] == lines[1..][i - 1];
    }
  }

  lemma {:induction false} ReadHunksQuiet(lines: seq<string>)
    ensures forall k :: 0 <= k < |ReadHunks(lines).0| ==> QuietHunk(ReadHunks(lines).0[k])
    decreases |lines|
  {
    if lines != [] && !IsOldHeader(lines[0]) {
      if IsHunkHeader(lines[0]) {
        var n := 1 + Span(lines[1..]);
        SpanContinues(lines[1..]);
        ReadHunksQuiet(lines[n..]);
        assert forall i :: 1 <= i < n ==> lines[..n][i] == lines[1..][i - 1];
        assert QuietHunk(lines[..n]);
      } else {
        ReadHunksQuiet(lines[1..]);
      }
    }
  }

  lemma {:induction false} RStripQuiet(s: string)
    ensures RStrip(s) != "" ==> !IsSpace(RStrip(s)[|RStrip(s)| - 1])
  {
    if s != "" && IsSpace(s[|s| - 1]) {
      RStripQuiet(s[..|s| - 1]);
    }
  }

  lemma PathQuiet(header: string)
    requires IsNewHeader(header)
    ensures QuietPath(PathOf(header))
  {
    RStripQuiet(LStrip(header[4..]));
  }

  lemma {:induction false} ReadPatchesQuiet(lines: seq<string>)
    ensures ReadPatches(lines).Some? ==>
      forall k :: 0 <= k < |ReadPatches(lines).value| ==> Quiet(ReadPatches(lines).value[k])
    decreases |lines|
  {
    if lines != [] {
      if !IsOldHeader(lines[0]) {
        ReadPatchesQuiet(lines[1..]);
      } else if |lines| >= 2 && IsNewHeader(lines[1]) {
        PathQuiet(lines[1]);
        ReadHunksQuiet(lines[2..]);
        ReadPatchesQuiet(ReadHunks(lines[2..]).1);
      }
    }
  }

  /** Reading undoes rendering exactly for the patches in which no line can be mistaken for a
      header and no path ends in white space. */
  lemma ReadingInvertsRendering(patches: seq<FilePatch>)
    ensures ReadPatches(Render(patches)) == Some(patches) <==>
      forall k :: 0 <= k < |patches| ==> Quiet(patches[k])
  {
    ReadPatchesQuiet(Render(patches));
    if forall k :: 0 <= k < |patches| ==> Quiet(patches[k]) {
      ReadRendered(patches);
    }
  }

  // What is read is made of the lines, and of no more lines than there are

  ghost predicate FromLines(lines: seq<string>, p: FilePatch) {
    && (exists header :: header in lines && IsNewHeader(header) && p.path == PathOf(header))
    && (forall k, line :: 0 <= k < |p.hunks| && line in p.hunks[k] ==> line in lines)
  }

  lemma {:induction false} HunksFromLines(lines: seq<string>)
    ensures var (hunks, rest) := ReadHunks(lines);
      && |Flatten(hunks)| + |rest| <= |lines|
      && (forall k, line :: 0 <= k < |hunks| && line in hunks[k] ==> line in lines)
      && (forall line :: line in rest ==> line in lines)
    decreases |lines|
  {
    if lines != [] && !IsOldHeader(lines[0]) {
      var n := if IsHunkHeader(lines[0]) then 1 + Span(lines[1..]) else 1;
      HunksFromLines(lines[n..]);
      assert forall line :: line in lines[..n] || line in lines[n..] ==> line in lines;
      if IsHunkHeader(lines[0]) {
        var (hunks, rest) := ReadHunks(lines[n..]);
        assert ReadHunks(lines).0 == [lines[..n]] + hunks;
        assert ([lines[..n]] + hunks)[1..] == hunks;
      }
    }
  }

  lemma FromMoreLines(some: seq<string>, all: seq<string>, p: FilePatch)
    requires FromLines(some, p) && forall line :: line in some ==> line in all
    ensures FromLines(all, p)
  {
  }

  lemma {:induction false} PatchesFromLines(lines: seq<string>)
    requires ReadPatches(lines).Some?
    ensures var patches := ReadPatches(lines).value;
      && |Render(patches)| <= |lines|
      && (forall k :: 0 <= k < |patches| ==> FromLines(lines, patches[k]))
    decreases |lines|
  {
    hide FromLines;
    if lines != [] {
      if !IsOldHeader(lines[0]) {
        PatchesFromLines(lines[1..]);
        forall k | 0 <= k < |ReadPatches(lines).value| ensures FromLines(lines, ReadPatches(lines).value[k]) {
          FromMoreLines(lines[1..], lines, ReadPatches(lines).value[k]);
        }
      } else {
        FirstFromLines(lines);
        var (hunks, rest) := ReadHunks(lines[2..]);
        HunksFromLines(lines[2..]);
        PatchesFromLines(rest);
        var first, others := FilePatch(PathOf(lines[1]), hunks), ReadPatches(rest).value;
        assert ReadPatches(lines).value == [first] + others;
        assert Render([first] + others)
            == [OldHeader(first.path), NewHeader(first.path)] + Flatten(hunks) + Render(others) by {
          assert ([first] + others)[1..] == others;
        }
        forall k | 0 <= k < |others| ensures FromLines(lines, others[k]) {
          FromMoreLines(rest, lines, others[k]);
        }
      }
    }
  }

  lemma FirstFromLines(lines: seq<string>)
    requires |lines| >= 2 && IsNewHeader(lines[1])
    ensures FromLines(lines, FilePatch(PathOf(lines[1]), ReadHunks(lines[2..]).0))
  {
    HunksFromLines(lines[2..]);
    assert forall line :: line in lines[2..] ==> line in lines;
    assert lines[1] in lines;
  }

  predicate NoBreak(s: string) {
    forall i :: 0 <= i < |s| ==> !IsLineBreak(s[i])
  }

  /** After a line break there are only line breaks. */
  lemma {:induction false} BreaksRunToEnd(s: string)
    requires AtMostLine(s)
    ensures forall i, j :: 0 <= i <= j < |s| && IsLineBreak(s[i]) ==> IsLineBreak(s[j])
  {
    if |s| > 1 && !IsLineBreak(s[0]) {
      BreaksRunToEnd(s[1..]);
      forall i, j | 0 <= i <= j < |s| && IsLineBreak(s[i]) ensures IsLineBreak(s[j]) {
        assert s[i] == s[1..][i - 1] && s[j] == s[1..][j - 1];
      }
    }
  }

  lemma {:induction false} RStripCuts(s: string)
    ensures |RStrip(s)| <= |s| && RStrip(s) == s[..|RStrip(s)|]
    ensures forall i :: |RStrip(s)| <= i < |s| ==> IsSpace(s[i])
    ensures RStrip(s) != "" ==> !IsSpace(s[|RStrip(s)| - 1])
  {
    if s != "" && IsSpace(s[|s| - 1]) {
      RStripCuts(s[..|s| - 1]);
    }
  }

  lemma {:induction false} LStripCuts(s: string)
    ensures |LStrip(s)| <= |s| && LStrip(s) == s[|s| - |LStrip(s)|..]
  {
    if s != "" && IsSpace(s[0]) {
      LStripCuts(s[1..]);
    }
  }

  lemma BreaksAreSpaces(c: char)
    ensures IsLineBreak(c) ==> IsSpace(c)
  {
  }

  /** A path that was read has no line break in it. */
  lemma PathIsUnbroken(header: string)
    requires IsNewHeader(header) && AtMostLine(header)
    ensures NoBreak(PathOf(header))
  {
    BreaksRunToEnd(header);
    var left := LStrip(header[4..]);
    LStripCuts(header[4..]);
    RStripCuts(left);
    var path := RStrip(left);
    forall i | 0 <= i < |path| ensures !IsLineBreak(path[i]) {
      var from := |header| - |left|;
      assert path[i] == left[i] == header[from + i];
      assert path[|path| - 1] == left[|path| - 1] == header[from + (|path| - 1)];
      BreaksAreSpaces(path[|path| - 1]);
    }
  }

  lemma {:induction false} UnbrokenLine(s: string)
    requires NoBreak(s)
    ensures FirstLine(s + ['\n']) == |s| + 1
  {
    if s != "" {
      UnbrokenLine(s[1..]);
      assert (s + ['\n'])[1..] == s[1..] + ['\n'];
    }
  }

  lemma HeadersAreLines(path: string)
    requires NoBreak(path)
    ensures AtMostLine(OldHeader(path)) && AtMostLine(NewHeader(path))
  {
    UnbrokenLine(['-', '-', '-', ' ', 'a', '/'] + path);
    UnbrokenLine(['+', '+', '+', ' ', 'b', '/'] + path);
  }

  lemma {:induction false} InFlatten(hunks: seq<Hunk>, line: string)
    ensures line in Flatten(hunks) <==> exists k :: 0 <= k < |hunks| && line in hunks[k]
  {
    if hunks != [] {
      InFlatten(hunks[1..], line);
      if k :| 0 <= k < |hunks| && line in hunks[k] {
        assert k == 0 || line in hunks[1..][k - 1];
      }
      if k :| 0 <= k < |hunks[1..]| && line in hunks[1..][k] {
        assert line in hunks[k + 1];
      }
    }
  }

  lemma {:induction false} RenderedAreLines(lines: seq<string>, patches: seq<FilePatch>)
    requires forall line :: line in lines ==> AtMostLine(line)
    requires forall k :: 0 <= k < |patches| ==> FromLines(lines, patches[k])
    ensures forall line :: line in Render(patches) ==> AtMostLine(line)
  {
    if patches != [] {
      var p := patches[0];
      assert FromLines(lines, p);
      var header :| header in lines && IsNewHeader(header) && p.path == PathOf(header);
      PathIsUnbroken(header);
      HeadersAreLines(p.path);
      forall line | line in Flatten(p.hunks) ensures AtMostLine(line) {
        InFlatten(p.hunks, line);
      }
      RenderedAreLines(lines, patches[1..]);
    }
  }

  /** Parsing the text of rendered patches gives back the patches if and only if no line can be
      mistaken for a header and the text splits into the rendered lines. */
  lemma ParserLeftInverse(patches: seq<FilePatch>)
    ensures ParsedPatches(SplitLines(Join(Render(patches)))) == patches <==>
      && (forall k :: 0 <= k < |patches| ==> Quiet(patches[k]))
      && SplitLines(Join(Render(patches))) == Render(patches)
  {
    var lines := SplitLines(Join(Render(patches)));
    ReadingInvertsRendering(patches);
    if ParsedPatches(lines) == patches && patches != [] {
      SplitIntoLines(Join(Render(patches)));
      PatchesFromLines(lines);
      RenderedAreLines(lines, patches);
      PiecesMerge(Render(patches));
    }
  }

  /** Lines that end in a line feed, and only there, survive joining and splitting. */
  lemma PlainLinesSplit(patches: seq<FilePatch>)
    requires forall line :: line in Render(patches) ==> IsLine(line)
    ensures SplitLines(Join(Render(patches))) == Render(patches)
  {
    SplitLinesJoin(Render(patches));
  }

  /** A written hunk is quiet unless it removes a line that starts with "-- ". */
  lemma WrittenHunksAreQuiet(oldNumber: nat, newNumber: nat, edits: seq<Edit>)
    ensures QuietHunk(HunkText(oldNumber, newNumber, edits)) <==>
      forall i :: 0 <= i < |edits| ==> !(edits[i].Drop? && StartsWith(edits[i].content, "-- "))
  {
    var h := HunkText(oldNumber, newNumber, edits);
    assert h[0][..2] == "@@";
    EditLinesAt(edits);
    forall i | 0 <= i < |edits|
      ensures Continues(h[i + 1]) <==> !(edits[i].Drop? && StartsWith(edits[i].content, "-- "))
    {
      EditLineContinues(edits[i]);
    }
    if !QuietHunk(h) {
      var j :| 1 <= j < |h| && !Continues(h[j]);
      assert h[(j - 1) + 1] == h[j];
    }
  }

  lemma {:induction false} EditLinesAt(edits: seq<Edit>)
    ensures |EditLines(edits)| == |edits|
    ensures forall i :: 0 <= i < |edits| ==> EditLines(edits)[i] == EditLine(edits[i])
  {
    if edits != [] {
      EditLinesAt(edits[1..]);
    }
  }

  lemma EditLineContinues(e: Edit)
    ensures Continues(EditLine(e)) <==> !(e.Drop? && StartsWith(e.content, "-- "))
  {
    var line := EditLine(e);
    assert |line| >= 2 ==> line[..2][0] == line[0];
    assert |line| >= 4 ==> line[..4][0] == line[0];
    if e.Drop? {
      assert line[1..] == e.content;
      if |line| >= 4 {
        assert line[..4] == [line[0]] + e.content[..3];
        assert line[..4][1..] == e.content[..3];
        assert ("--- ")[1..] == "-- ";
      }
    }
  }

  // ---------------------------------------------------------------------------------------------
  // The plain form

  /** A file patch before it is written: the path, and the blocks of its hunks. */
  datatype Draft = Draft(path: string, blocks: seq<Block>)

  function Written(drafts: seq<Draft>): (patches: seq<FilePatch>)
    ensures |patches| == |drafts|
    ensures forall k :: 0 <= k < |drafts| ==> patches[k] == FilePatch(drafts[k].path, HunkTexts(drafts[k].blocks, 0))
  {
    seq(|drafts|, k requires 0 <= k < |drafts| => FilePatch(drafts[k].path, HunkTexts(drafts[k].blocks, 0)))
  }

  predicate PlainEdit(e: Edit) {
    e.Note? || (IsLine(e.content) && !(e.Drop? && StartsWith(e.content, "-- ")))
  }

  predicate PlainBlocks(blocks: seq<Block>) {
    forall k, i :: 0 <= k < |blocks| && 0 <= i < |blocks[k].edits| ==> PlainEdit(blocks[k].edits[i])
  }

  /** The path has no line break and no white space at its end; every line ends in a line feed and in
      nothing else; and no removed line starts with "-- ". */
  ghost predicate PlainDraft(d: Draft) {
    QuietPath(d.path) && NoBreak(d.path) && PlainBlocks(d.blocks)
  }

  lemma HeaderIsLine(oldNumber: nat, oldCount: nat, newNumber: nat, newCount: nat)
    ensures IsLine(HeaderLine(oldNumber, oldCount, newNumber, newCount))
  {
    var a, b, c, d := Decimal(oldNumber), Decimal(oldCount), Decimal(newNumber), Decimal(newCount);
    var before, after := ['@', '@', ' ', '-'] + a + [','] + b, [' ', '+'] + c + [','] + d + [' ', '@', '@'];
    DigitsUnbroken(a);
    DigitsUnbroken(b);
    DigitsUnbroken(c);
    DigitsUnbroken(d);
    assert NoBreak(before) && NoBreak(after);
    assert HeaderLine(oldNumber, oldCount, newNumber, newCount) == before + after + ['\n'];
  }

  lemma DigitsUnbroken(s: string)
    requires forall i :: 0 <= i < |s| ==> IsDigit(s[i])
    ensures NoBreak(s)
  {
  }

  lemma PlainEditLine(e: Edit)
    requires PlainEdit(e)
    ensures IsLine(EditLine(e))
  {
  }

  lemma PlainHunk(oldNumber: nat, newNumber: nat, edits: seq<Edit>)
    requires forall i :: 0 <= i < |edits| ==> PlainEdit(edits[i])
    ensures QuietHunk(HunkText(oldNumber, newNumber, edits))
    ensures forall line :: line in HunkText(oldNumber, newNumber, edits) ==> IsLine(line)
  {
    hide IsLine, EditLine, QuietHunk, HeaderLine, StartsWith;
    WrittenHunksAreQuiet(oldNumber, newNumber, edits);
    HeaderIsLine(oldNumber, |OldSide(edits)|, newNumber, |NewSide(edits)|);
    EditLinesAt(edits);
    forall i | 0 <= i < |edits| ensures IsLine(EditLines(edits)[i]) {
      PlainEditLine(edits[i]);
    }
  }

  ghost predicate PlainHunkText(h: Hunk) {
    QuietHunk(h) && forall line :: line in h ==> IsLine(line)
  }

  lemma {:induction false} PlainHunks(blocks: seq<Block>, shift: int)
    requires PlainBlocks(blocks)
    ensures forall h :: h in HunkTexts(blocks, shift) ==> PlainHunkText(h)
  {
    hide HunkText, PlainHunkText, PlainEdit;
    if blocks != [] {
      var b := blocks[0];
      PlainBlocksTail(blocks);
      PlainHunks(blocks[1..], shift + GrowthOf(b.edits));
      IsPlainHunkText(b.start + 1, Natural(b.start + shift) + 1, b.edits);
    }
  }

  lemma PlainBlocksTail(blocks: seq<Block>)
    requires PlainBlocks(blocks) && blocks != []
    ensures PlainBlocks(blocks[1..])
  {
  }

  lemma IsPlainHunkText(oldNumber: nat, newNumber: nat, edits: seq<Edit>)
    requires forall i :: 0 <= i < |edits| ==> PlainEdit(edits[i])
    ensures PlainHunkText(HunkText(oldNumber, newNumber, edits))
  {
    hide HunkText, QuietHunk, IsLine, PlainEdit;
    PlainHunk(oldNumber, newNumber, edits);
  }

  lemma HeadersArePlain(path: string)
    requires NoBreak(path)
    ensures IsLine(OldHeader(path)) && IsLine(NewHeader(path))
  {
    var old_, new_ := OldHeader(path), NewHeader(path);
    assert forall i :: 0 <= i < |old_| - 1 ==> old_[i] == (['-', '-', '-', ' ', 'a', '/'] + path)[i];
    assert forall i :: 0 <= i < |new_| - 1 ==> new_[i] == (['+', '+', '+', ' ', 'b', '/'] + path)[i];
  }

  lemma PlainLine(h: Hunk, line: string)
    requires PlainHunkText(h) && line in h
    ensures IsLine(line)
  {
  }

  lemma {:induction false} RenderedArePlain(patches: seq<FilePatch>)
    requires forall k :: 0 <= k < |patches| ==> NoBreak(patches[k].path)
    requires forall k, h :: 0 <= k < |patches| && h in patches[k].hunks ==> PlainHunkText(h)
    ensures forall line :: line in Render(patches) ==> IsLine(line)
  {
    hide IsLine, QuietHunk, NoBreak, OldHeader, NewHeader;
    if patches != [] {
      var p := patches[0];
      HeadersArePlain(p.path);
      forall line | line in Flatten(p.hunks) ensures IsLine(line) {
        InFlatten(p.hunks, line);
        var k :| 0 <= k < |p.hunks| && line in p.hunks[k];
        assert p.hunks[k] in p.hunks;
        PlainLine(p.hunks[k], line);
      }
      RenderedArePlain(patches[1..]);
    }
  }

  /** Patches in plain form survive being written and read: parsing their text gives back the paths and
      the hunks, and reading the hunks gives back the blocks. */
  lemma PlainRoundTrip(drafts: seq<Draft>)
    requires forall k :: 0 <= k < |drafts| ==> PlainDraft(drafts[k])
    ensures var patches := Written(drafts);
      && ParsedPatches(SplitLines(Join(Render(patches)))) == patches
      && forall k :: 0 <= k < |drafts| ==> BlocksOf(patches[k].hunks) == Some(drafts[k].blocks)
  {
    hide PlainHunkText, QuietPath, NoBreak, PlainBlocks, BlocksOf, HunkTexts, QuietHunk;
    var patches := Written(drafts);
    forall k | 0 <= k < |drafts|
      ensures Quiet(patches[k]) && BlocksOf(patches[k].hunks) == Some(drafts[k].blocks)
      ensures forall h :: h in patches[k].hunks ==> PlainHunkText(h)
    {
      PlainHunks(drafts[k].blocks, 0);
      PlainIsQuiet(patches[k].hunks);
      BlocksOfTexts(drafts[k].blocks, 0);
    }
    RenderedArePlain(patches);
    PlainLinesSplit(patches);
    ParserLeftInverse(patches);
  }

  lemma PlainIsQuiet(hunks: seq<Hunk>)
    requires forall h :: h in hunks ==> PlainHunkText(h)
    ensures forall k :: 0 <= k < |hunks| ==> QuietHunk(hunks[k])
  {
    forall k | 0 <= k < |hunks| ensures QuietHunk(hunks[k]) {
      assert hunks[k] in hunks;
    }
  }
}
