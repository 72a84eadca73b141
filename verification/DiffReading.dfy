/** What the reader of a diff makes of other headers and lines than the plain ones, and when a file
    patch is refused. */
module DiffReading {
  import opened Wrappers
  import opened Text
  import opened TextReading
  import opened Hunks
  import opened UnifiedDiff
  import opened PatchApply

  // ---------------------------------------------------------------------------------------------
  // Headers

  function NewFileLine(text: string): string {
    ['+', '+', '+', ' '] + text
  }

  lemma NewFileLineIsHeader(text: string)
    ensures IsNewHeader(NewFileLine(text)) && NewFileLine(text)[4..] == text
  {
    var line := NewFileLine(text);
    assert line[..4] == ['+', '+', '+', ' '] == "+++ ";
  }

  /** The path named after "+++ ", without the white space around it; a leading "a/" or "b/" is dropped,
      and nothing else. */
  lemma PathIsNamed(before: string, path: string, after: string)
    requires AllBlank(before) && AllBlank(after) && Trimmed(path)
    ensures var header := NewFileLine(before + path + after);
      && IsNewHeader(header)
      && PathOf(header)
         == if |path| >= 2 && (path[0] == 'a' || path[0] == 'b') && path[1] == '/' then path[2..] else path
  {
    NewFileLineIsHeader(before + path + after);
    StripTrims(before, path, after);
    hide Strip;
    PrefixLetters(path);
  }

  lemma PrefixLetters(path: string)
    ensures StartsWith(path, "a/") <==> |path| >= 2 && path[0] == 'a' && path[1] == '/'
    ensures StartsWith(path, "b/") <==> |path| >= 2 && path[0] == 'b' && path[1] == '/'
  {
    if |path| >= 2 {
      assert path[..2] == [path[0], path[1]];
      assert "a/" == ['a', '/'] && "b/" == ['b', '/'];
    }
  }

  /** Whatever comes before the first "--- " line is skipped. */
  lemma {:induction false} PreambleIsSkipped(before: seq<string>, lines: seq<string>)
    requires forall line :: line in before ==> !StartsWith(line, "--- ")
    ensures ReadPatches(before + lines) == ReadPatches(lines)
  {
    if before == [] {
      assert before + lines == lines;
    } else {
      assert before[0] in before;
      assert (before + lines)[1..] == before[1..] + lines;
      PreambleIsSkipped(before[1..], lines);
    }
  }

  /** So is whatever comes between the headers of a file and its first hunk. */
  lemma {:induction false} InterludeIsSkipped(between: seq<string>, lines: seq<string>)
    requires forall line :: line in between ==> !StartsWith(line, "--- ") && !StartsWith(line, "@@")
    ensures ReadHunks(between + lines) == ReadHunks(lines)
  {
    if between == [] {
      assert between + lines == lines;
    } else {
      assert between[0] in between;
      assert (between + lines)[1..] == between[1..] + lines;
      InterludeIsSkipped(between[1..], lines);
    }
  }

  /** A "--- " line that is not followed by a "+++ " line makes the whole text unreadable. */
  lemma LoneHeaderIsRefused(before: seq<string>, header: string, after: seq<string>)
    requires forall line :: line in before ==> !StartsWith(line, "--- ")
    requires StartsWith(header, "--- ") && (after != [] ==> !StartsWith(after[0], "+++ "))
    ensures ParsedPatches(before + ([header] + after)) == []
  {
    PreambleIsSkipped(before, [header] + after);
    var rest := [header] + after;
    assert |rest| >= 2 ==> rest[1] == after[0];
  }

  // ---------------------------------------------------------------------------------------------
  // Refusals

  /** A file patch is refused because its path is absolute, or leads out of the root, or because there
      is no such file, or because its hunks do not fit; and for no other reason. */
  lemma RefusedBecause(resolve: Resolver, files: Files, p: FilePatch)
    ensures FileBlocker(resolve, files, p) ==
      if p.path != "" && p.path[0] == '/' then Some(AbsolutePath)
      else match resolve(p.path)
        case None => Some(PathEscapes)
        case Some(at) =>
          if at !in files then Some(TargetMissing(p.path))
          else if !HunksFit(SplitLines(files[at]), p.hunks, 0) then Some(DoesNotApply(p.path)) else None
  {
    assert p.path != "" ==> p.path[..1] == [p.path[0]];
    assert "/" == ['/'];
  }
}
