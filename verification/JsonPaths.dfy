/** The textual paths of a change list: which of them can be read back, and replaying from text. */
module JsonPaths {
  import opened Wrappers
  import opened Ordering
  import opened Text
  import opened JsonDiff

  predicate IsDelimiter(c: char) {
    c == '.' || c == '['
  }

  ghost predicate PlainKey(k: string) {
    forall i :: 0 <= i < |k| ==> !IsDelimiter(k[i])
  }

  ghost predicate PlainKeys(p: Path) {
    forall i :: 0 <= i < |p| ==> p[i].Key? ==> PlainKey(p[i].k)
  }

  /** No key contains "." or "[", and the path does not start with the empty key. */
  ghost predicate PlainPath(p: Path) {
    PlainKeys(p) && (p != [] ==> p[0] != Key(""))
  }

  // ---------------------------------------------------------------------------------------------
  // The text of a path, step by step

  function StepText(step: Step): string {
    match step case Key(k) => ['.'] + k case Index(i) => ['['] + Decimal(i) + [']']
  }

  function StepsText(p: Path): string {
    if p == [] then "" else StepText(p[0]) + StepsText(p[1..])
  }

  lemma JoinAppends(prefix: string, step: Step)
    requires prefix != ""
    ensures JoinStep(prefix, step) == prefix + StepText(step)
  {
    assert "." == ['.'];
  }

  lemma Assoc(a: string, b: string, c: string)
    ensures a + b + c == a + (b + c)
  {
  }

  lemma {:induction false} TextAfterPrefix(prefix: string, p: Path)
    requires prefix != ""
    ensures TextFrom(prefix, p) == prefix + StepsText(p)
    decreases |p|
  {
    if p != [] {
      JoinAppends(prefix, p[0]);
      TextAfterPrefix(JoinStep(prefix, p[0]), p[1..]);
      Assoc(prefix, StepText(p[0]), StepsText(p[1..]));
    }
  }

  // ---------------------------------------------------------------------------------------------
  // Reading a path back

  function KeyEnd(s: string): (n: nat)
    ensures n <= |s|
  {
    if s == "" || IsDelimiter(s[0]) then 0 else 1 + KeyEnd(s[1..])
  }

  function ReadSteps(s: string): Path
    decreases |s|
  {
    if s == "" then []
    else if s[0] == '[' then
      var j := IndexOf(s, ']');
      if j == |s| then []
      else
        match DigitsValue(s[1..j])
        case None => []
        case Some(i) => [Index(i)] + ReadSteps(s[j + 1..])
    else
      var n := 1 + KeyEnd(s[1..]);
      [Key(s[1..n])] + ReadSteps(s[n..])
  }

  function ReadPath(s: string): Path {
    if s == "" || s[0] == '.' then []
    else if s[0] == '[' then ReadSteps(s)
    else [Key(s[..KeyEnd(s)])] + ReadSteps(s[KeyEnd(s)..])
  }

  lemma {:induction false} KeyEndOf(k: string, after: string)
    requires PlainKey(k) && (after != "" ==> IsDelimiter(after[0]))
    ensures KeyEnd(k + after) == |k|
  {
    if k == "" {
      assert k + after == after;
    } else {
      assert (k + after)[1..] == k[1..] + after;
      KeyEndOf(k[1..], after);
    }
  }

  lemma StepsTextStart(p: Path)
    ensures StepsText(p) != "" ==> IsDelimiter(StepsText(p)[0])
    ensures StepsText(p) == "" <==> p == []
  {
  }

  lemma ReadIndex(i: nat, after: string)
    ensures ReadSteps(StepText(Index(i)) + after) == [Index(i)] + ReadSteps(after)
  {
    var digits := Decimal(i);
    var s := StepText(Index(i)) + after;
    forall k | 0 <= k < 1 + |digits| ensures s[k] != ']' {
      assert k > 0 ==> s[k] == digits[k - 1] && IsDigit(digits[k - 1]);
    }
    IndexOfFirst(s, ']', 1 + |digits|);
    assert s[1..1 + |digits|] == digits && s[2 + |digits|..] == after;
    DigitsValueOfDecimal(i);
  }

  lemma ReadKey(k: string, after: string)
    requires PlainKey(k) && (after != "" ==> IsDelimiter(after[0]))
    ensures ReadSteps(StepText(Key(k)) + after) == [Key(k)] + ReadSteps(after)
  {
    var s := StepText(Key(k)) + after;
    assert s[1..] == k + after;
    KeyEndOf(k, after);
    assert s[1..1 + |k|] == k && s[1 + |k|..] == after;
  }

  lemma {:induction false} ReadStepsOfText(p: Path)
    requires PlainKeys(p)
    ensures ReadSteps(StepsText(p)) == p
  {
    if p != [] {
      ReadStepsOfText(p[1..]);
      StepsTextStart(p[1..]);
      match p[0] {
        case Key(k) => ReadKey(k, StepsText(p[1..]));
        case Index(i) => ReadIndex(i, StepsText(p[1..]));
      }
      assert p == [p[0]] + p[1..];
    }
  }

  lemma ReadPathFromKey(k: string, p: Path)
    requires k != "" && PlainKey(k) && PlainKeys(p)
    ensures ReadPath(TextFrom(k, p)) == [Key(k)] + p
  {
    var rest := StepsText(p);
    TextAfterPrefix(k, p);
    StepsTextStart(p);
    KeyEndOf(k, rest);
    assert (k + rest)[..|k|] == k && (k + rest)[|k|..] == rest;
    assert !IsDelimiter(k[0]);
    ReadStepsOfText(p);
  }

  lemma ReadPathFromIndex(i: nat, p: Path)
    requires PlainKeys(p)
    ensures ReadPath(TextFrom(StepText(Index(i)), p)) == [Index(i)] + p
  {
    TextAfterPrefix(StepText(Index(i)), p);
    ReadIndex(i, StepsText(p));
    ReadStepsOfText(p);
  }

  lemma ReadPathOfText(p: Path)
    requires PlainPath(p)
    ensures ReadPath(TextFrom("", p)) == p
  {
    if p != [] {
      assert p == [p[0]] + p[1..];
      match p[0] {
        case Key(k) => ReadPathFromKey(k, p[1..]);
        case Index(i) =>
          assert JoinStep("", p[0]) == StepText(p[0]);
          ReadPathFromIndex(i, p[1..]);
      }
    }
  }

  lemma {:induction false} KeyEndPlain(s: string)
    ensures PlainKey(s[..KeyEnd(s)])
  {
    if s != "" && !IsDelimiter(s[0]) {
      KeyEndPlain(s[1..]);
      var k, tail := s[..KeyEnd(s)], s[1..][..KeyEnd(s[1..])];
      assert forall i :: 1 <= i < |k| ==> k[i] == tail[i - 1];
    }
  }

  lemma {:induction false} ReadStepsPlain(s: string)
    ensures PlainKeys(ReadSteps(s))
    decreases |s|
  {
    if s != "" {
      if s[0] == '[' {
        var j := IndexOf(s, ']');
        if j < |s| {
          ReadStepsPlain(s[j + 1..]);
        }
      } else {
        var n := 1 + KeyEnd(s[1..]);
        KeyEndPlain(s[1..]);
        assert s[1..n] == s[1..][..n - 1];
        ReadStepsPlain(s[n..]);
      }
    }
  }

  lemma ReadPathPlain(s: string)
    ensures PlainPath(ReadPath(s))
  {
    if s != "" && s[0] != '.' {
      ReadStepsPlain(s);
      if s[0] != '[' {
        KeyEndPlain(s);
        ReadStepsPlain(s[KeyEnd(s)..]);
      }
    }
  }

  /** The text of a path identifies it exactly when the path is plain. */
  lemma PathTextRoundTrip(p: Path)
    ensures ReadPath(TextFrom("", p)) == p <==> PlainPath(p)
  {
    ReadPathPlain(TextFrom("", p));
    if PlainPath(p) {
      ReadPathOfText(p);
    }
  }

  /** Among plain paths the text identifies the path. */
  lemma PlainTextsDiffer(p: Path, q: Path)
    requires PlainPath(p) && PlainPath(q) && TextFrom("", p) == TextFrom("", q)
    ensures p == q
  {
    ReadPathOfText(p);
    ReadPathOfText(q);
  }

  /** Empty keys at the start leave no trace in the text. */
  predicate Starts(p: Path) {
    p != [] ==> p[0] != Key("")
  }

  /** Another path reads the same. */
  ghost predicate SharesText(p: Path) {
    exists q :: q != p && Starts(q) && TextFrom("", q) == TextFrom("", p)
  }

  /** The key reads like a path of several steps or like an index: it has a dot after its first
      character, or ends with a number in brackets. */
  ghost predicate Splittable(k: string) {
    || (exists i :: 0 < i < |k| && k[i] == '.')
    || (exists x: string, n: nat :: k == x + StepText(Index(n)))
  }

  lemma FirstText(p: Path)
    requires p != [] && Starts(p)
    ensures JoinStep("", p[0]) != "" && TextFrom("", p) == JoinStep("", p[0]) + StepsText(p[1..])
  {
    TextAfterPrefix(JoinStep("", p[0]), p[1..]);
  }

  lemma {:induction false} StepsTextSnoc(p: Path, step: Step)
    ensures StepsText(p + [step]) == StepsText(p) + StepText(step)
  {
    if p == [] {
      assert [step][1..] == [];
    } else {
      assert (p + [step])[1..] == p[1..] + [step];
      StepsTextSnoc(p[1..], step);
      Assoc(StepText(p[0]), StepsText(p[1..]), StepText(step));
    }
  }

  /** The text of several steps is a longer text followed by that of the last step. */
  lemma LastText(p: Path) returns (x: string)
    requires |p| > 1 && Starts(p)
    ensures x != "" && TextFrom("", p) == x + StepText(p[|p| - 1])
  {
    hide StepText, TextFrom, JoinStep, StepsText;
    var n := |p| - 1;
    FirstText(p);
    assert p[1..] == p[1..n] + [p[n]];
    StepsTextSnoc(p[1..n], p[n]);
    Assoc(JoinStep("", p[0]), StepsText(p[1..n]), StepText(p[n]));
    x := JoinStep("", p[0]) + StepsText(p[1..n]);
  }

  lemma EndsSplittable(x: string, step: Step)
    requires x != "" || step.Index?
    ensures Splittable(x + StepText(step))
  {
    var k := x + StepText(step);
    match step {
      case Key(_) => assert k[|x|] == '.';
      case Index(n) => assert k == x + StepText(Index(n));
    }
  }

  lemma KeyText(k: string)
    ensures TextFrom("", [Key(k)]) == k
  {
    TextOfStep("", Key(k));
  }

  lemma TwoSteps(x: string, step: Step)
    requires x != ""
    ensures TextFrom("", [Key(x), step]) == x + StepText(step)
  {
    hide StepText;
    JoinAppends(x, step);
    TextOfStep(x, step);
    assert [Key(x), step][1..] == [step];
  }

  lemma SplitAtDot(k: string, i: nat)
    requires 0 < i < |k| && k[i] == '.'
    ensures SharesText([Key(k)])
  {
    hide TextFrom;
    KeyText(k);
    var q := [Key(k[..i]), Key(k[i + 1..])];
    TwoSteps(k[..i], Key(k[i + 1..]));
    assert k == k[..i] + StepText(Key(k[i + 1..]));
    assert q != [Key(k)] && Starts(q);
  }

  lemma IndexText(n: nat)
    ensures TextFrom("", [Index(n)]) == StepText(Index(n))
  {
    TextOfStep("", Index(n));
  }

  lemma SplitAtIndex(x: string, n: nat)
    ensures SharesText([Key(x + StepText(Index(n)))])
  {
    hide TextFrom, StepText;
    var k := x + StepText(Index(n));
    KeyText(k);
    if x == "" {
      IndexText(n);
      var q := [Index(n)];
      assert q != [Key(k)] && Starts(q) && TextFrom("", q) == k;
    } else {
      TwoSteps(x, Index(n));
      var q := [Key(x), Index(n)];
      assert q != [Key(k)] && Starts(q);
    }
  }

  /** A splittable key is also the text of a path of one index or of two steps. */
  lemma SplitKey(k: string)
    requires Splittable(k)
    ensures SharesText([Key(k)])
  {
    hide SharesText, StepText;
    if i :| 0 < i < |k| && k[i] == '.' {
      SplitAtDot(k, i);
    } else {
      var x: string, n: nat :| k == x + StepText(Index(n));
      SplitAtIndex(x, n);
    }
  }

  lemma SharedKeySplits(k: string, q: Path)
    requires k != "" && q != [Key(k)] && Starts(q) && TextFrom("", q) == k
    ensures Splittable(k)
  {
    if |q| > 1 {
      var x := LastText(q);
      EndsSplittable(x, q[|q| - 1]);
    } else if q != [] {
      FirstText(q);
      assert q == [q[0]] && StepsText(q[1..]) == "";
      if q[0].Index? {
        assert k == "" + StepText(q[0]);
      }
    }
  }

  /** Exactly the empty path and single keys that cannot be split have a text of their own: every
      other path reads like the key that is spelled like its whole text. */
  lemma TextIsShared(p: Path)
    requires Starts(p)
    ensures SharesText(p) <==> p != [] && (|p| == 1 && p[0].Key? ==> Splittable(p[0].k))
  {
    if p == [] {
      forall q | q != p && Starts(q) ensures TextFrom("", q) != TextFrom("", p) {
        FirstText(q);
      }
    } else if |p| == 1 && p[0].Key? {
      var k := p[0].k;
      assert p == [Key(k)];
      KeyText(k);
      if Splittable(k) {
        SplitKey(k);
      } else if q :| q != p && Starts(q) && TextFrom("", q) == TextFrom("", p) {
        SharedKeySplits(k, q);
      }
    } else {
      FirstText(p);
      var q := [Key(TextFrom("", p))];
      KeyText(TextFrom("", p));
      assert q != p && Starts(q);
    }
  }

  // ---------------------------------------------------------------------------------------------
  // Replaying from text

  function Read(c: Change<string>): Change<Path> {
    match c
    case Added(p, v) => Added(ReadPath(p), v)
    case Removed(p, v) => Removed(ReadPath(p), v)
    case Changed(p, v, w) => Changed(ReadPath(p), v, w)
  }

  function ReadAll(changes: seq<Change<string>>): (r: seq<Change<Path>>)
    ensures |r| == |changes| && forall i :: 0 <= i < |r| ==> r[i] == Read(changes[i])
  {
    seq(|changes|, i requires 0 <= i < |changes| => Read(changes[i]))
  }

  /** Every key in the value is plain and not empty. */
  ghost predicate PlainJson(j: Json) {
    match j
    case Obj(m) => forall k :: k in m ==> k != "" && PlainKey(k) && PlainJson(m[k])
    case Arr(s) => forall i :: 0 <= i < |s| ==> PlainJson(s[i])
    case _ => true
  }

  ghost predicate AllPlain(changes: seq<Change<Path>>) {
    forall i :: 0 <= i < |changes| ==> PlainPath(changes[i].path) && Nonempty(changes[i].path)
  }

  ghost predicate Nonempty(p: Path) {
    forall i :: 0 <= i < |p| ==> p[i] != Key("")
  }

  lemma PlainUnder(step: Step, changes: seq<Change<Path>>)
    requires AllPlain(changes) && step != Key("") && (step.Key? ==> PlainKey(step.k))
    ensures AllPlain(AllUnder(step, changes))
  {
    AllUnderAt(step, changes);
  }

  lemma {:induction false} KeyChangesPlain(n: nat, keys: seq<string>, old_: Json, new_: Json)
    requires old_.Obj? && new_.Obj? && PlainJson(old_) && PlainJson(new_) && n <= |keys|
    requires forall i :: 0 <= i < |keys| ==> keys[i] in old_.fields || keys[i] in new_.fields
    ensures AllPlain(DiffKeys(n, keys, old_, new_))
    decreases old_, 0, n + 1
  {
    if n != 0 {
      KeyChangesPlain(n - 1, keys, old_, new_);
      KeyChangePlain(keys[n - 1], old_, new_);
    }
  }

  lemma KeyChangePlain(k: string, old_: Json, new_: Json)
    requires old_.Obj? && new_.Obj? && PlainJson(old_) && PlainJson(new_)
    requires k in old_.fields || k in new_.fields
    ensures AllPlain(DiffKey(k, old_, new_))
    decreases old_, 0, 0
  {
    if k in old_.fields && k in new_.fields {
      ChangesPlain(old_.fields[k], new_.fields[k]);
      PlainUnder(Key(k), Diff(old_.fields[k], new_.fields[k]));
    }
  }

  lemma {:induction false} ItemChangesPlain(n: nat, old_: Json, new_: Json)
    requires old_.Arr? && new_.Arr? && PlainJson(old_) && PlainJson(new_)
    requires n <= Max(|old_.items|, |new_.items|)
    ensures AllPlain(DiffItems(n, old_, new_))
    decreases old_, 0, n + 1
  {
    if n != 0 {
      ItemChangesPlain(n - 1, old_, new_);
      ItemChangePlain(n - 1, old_, new_);
    }
  }

  lemma ItemChangePlain(i: nat, old_: Json, new_: Json)
    requires old_.Arr? && new_.Arr? && PlainJson(old_) && PlainJson(new_)
    requires i < |old_.items| || i < |new_.items|
    ensures AllPlain(DiffItem(i, old_, new_))
    decreases old_, 0, 0
  {
    if i < |old_.items| && i < |new_.items| {
      ChangesPlain(old_.items[i], new_.items[i]);
      PlainUnder(Index(i), Diff(old_.items[i], new_.items[i]));
    }
  }

  lemma {:induction false} ChangesPlain(old_: Json, new_: Json)
    requires PlainJson(old_) && PlainJson(new_)
    ensures AllPlain(Diff(old_, new_))
    decreases old_, 1, 0
  {
    if old_.Obj? && new_.Obj? {
      KeyChangesPlain(|UnionKeys(old_, new_)|, UnionKeys(old_, new_), old_, new_);
    } else if old_.Arr? && new_.Arr? {
      ItemChangesPlain(Max(|old_.items|, |new_.items|), old_, new_);
    }
  }

  /** A change list can be read back from its text exactly when all its paths are plain. */
  lemma ReadTexts(changes: seq<Change<Path>>)
    ensures ReadAll(Texts("", changes)) == changes <==> forall i :: 0 <= i < |changes| ==> PlainPath(changes[i].path)
  {
    var r := ReadAll(Texts("", changes));
    forall i | 0 <= i < |changes| ensures r[i] == changes[i] <==> PlainPath(changes[i].path) {
      PathTextRoundTrip(changes[i].path);
    }
    assert r == changes <==> forall i :: 0 <= i < |changes| ==> r[i] == changes[i];
  }

  /** With plain keys, the reported text alone rebuilds the new value from the old one. */
  lemma TextReplayLosesNothing(old_: Json, new_: Json)
    requires PlainJson(old_) && PlainJson(new_)
    ensures ReadAll(Texts("", Diff(old_, new_))) == Diff(old_, new_)
    ensures PyEq(Replay(old_, ReadAll(Texts("", Diff(old_, new_)))), new_)
  {
    ChangesPlain(old_, new_);
    ReadTexts(Diff(old_, new_));
    ReplayLosesNothing(old_, new_);
  }

  /** With plain keys, new values that are reported alike have the same changes, and Python calls them
      equal. */
  lemma TextIdentifiesNew(old_: Json, new1: Json, new2: Json)
    requires PlainJson(old_) && PlainJson(new1) && PlainJson(new2)
    requires Texts("", Diff(old_, new1)) == Texts("", Diff(old_, new2))
    ensures Diff(old_, new1) == Diff(old_, new2) && Rebuilt(old_, new1) == Rebuilt(old_, new2)
    ensures PyEq(Rebuilt(old_, new1), new1) && PyEq(Rebuilt(old_, new1), new2) && PyEq(new1, new2)
  {
    hide PyEq, PlainJson, Diff, Replay, ReadAll, Texts, Rebuilt;
    TextReplayLosesNothing(old_, new1);
    TextReplayLosesNothing(old_, new2);
    ReplayRebuilds(old_, new1);
    ReplayRebuilds(old_, new2);
    PyEqSymmetric(Rebuilt(old_, new1), new1);
    PyEqTransitive(new1, Rebuilt(old_, new1), new2);
  }

  lemma OneKey(k: string, old_: Json, new_: Json)
    requires old_.Obj? && new_.Obj? && old_.fields.Keys + new_.fields.Keys == {k}
    ensures Diff(old_, new_) == DiffKey(k, old_, new_)
  {
    var keys := UnionKeys(old_, new_);
    assert keys[0] in keys;
    assert DiffKeys(0, keys, old_, new_) == [];
  }

  lemma TwoKeys(k: string, l: string, old_: Json, new_: Json)
    requires old_.Obj? && new_.Obj? && k != l && old_.fields.Keys + new_.fields.Keys == {k, l}
    requires DiffKey(k, old_, new_) == []
    ensures Diff(old_, new_) == DiffKey(l, old_, new_)
  {
    var keys := UnionKeys(old_, new_);
    assert |keys| == 2;
    assert keys[0] in keys && keys[1] in keys;
    assert DiffKeys(0, keys, old_, new_) == [];
    assert DiffKeys(1, keys, old_, new_) == DiffKey(keys[0], old_, new_);
    assert Diff(old_, new_) == DiffKeys(1, keys, old_, new_) + DiffKey(keys[1], old_, new_);
  }

  function Empty(): Json {
    Obj(map[])
  }

  function Outer(): Json {
    Obj(map["a" := Empty()])
  }

  lemma AddedBelow()
    ensures Texts("", Diff(Outer(), Obj(map["a" := Obj(map["b" := Null])]))) == [Added("a.b", Null)]
  {
    var inner, new_ := Obj(map["b" := Null]), Obj(map["a" := Obj(map["b" := Null])]);
    OneKey("b", Empty(), inner);
    OneKey("a", Outer(), new_);
    TextsUnder("", Key("a"), Diff(Empty(), inner));
    TextOfStep("a", Key("b"));
    assert JoinKey("a", "b") == "a.b";
  }

  lemma AddedBeside()
    ensures Texts("", Diff(Outer(), Obj(map["a" := Empty(), "a.b" := Null]))) == [Added("a.b", Null)]
  {
    var new_ := Obj(map["a" := Empty(), "a.b" := Null]);
    NoChanges(Empty(), Empty());
    assert Outer().fields.Keys + new_.fields.Keys == {"a", "a.b"};
    TwoKeys("a", "a.b", Outer(), new_);
    TextOfStep("", Key("a.b"));
  }

  /** A dot in a key makes two different edits read the same: adding "b" below "a", and adding a
      key "a.b" beside it. */
  lemma DottedKeysCollide()
    ensures var new1, new2 := Obj(map["a" := Obj(map["b" := Null])]), Obj(map["a" := Empty(), "a.b" := Null]);
      Texts("", Diff(Outer(), new1)) == Texts("", Diff(Outer(), new2)) && !PyEq(new1, new2)
  {
    AddedBelow();
    AddedBeside();
    assert "a.b" in map["a" := Empty(), "a.b" := Null];
  }
}
