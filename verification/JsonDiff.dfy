/** The structural diff of two JSON values: what it reports, and what can be rebuilt from it. */
module JsonDiff {
  import opened Wrappers
  import opened Ordering
  import opened Text

  datatype Json =
    | Null
    | Bool(b: bool)
    | Int(n: int)
    | Float(x: real)
    | Str(s: string)
    | Arr(items: seq<Json>)
    | Obj(fields: map<string, Json>)

  datatype Step = Key(k: string) | Index(i: nat)

  type Path = seq<Step>

  /** A change at a path; the side that a change does not name is None in Python. */
  datatype Change<P> =
    | Added(path: P, new_: Json)
    | Removed(path: P, old_: Json)
    | Changed(path: P, old_: Json, new_: Json)

  // ---------------------------------------------------------------------------------------------
  // Python's equality

  /** Python compares booleans and numbers by value: True == 1 == 1.0. */
  function NumberOf(j: Json): Option<real> {
    match j
    case Bool(b) => Some(if b then 1.0 else 0.0)
    case Int(n) => Some(n as real)
    case Float(x) => Some(x)
    case _ => None
  }

  /** `==` on two values that are not both lists and not both dicts. */
  predicate SameScalar(a: Json, b: Json) {
    if NumberOf(a).Some? && NumberOf(b).Some? then NumberOf(a) == NumberOf(b) else a == b
  }

  ghost predicate PyEq(a: Json, b: Json) {
    if a.Obj? && b.Obj? then
      a.fields.Keys == b.fields.Keys && forall k :: k in a.fields ==> PyEq(a.fields[k], b.fields[k])
    else if a.Arr? && b.Arr? then
      |a.items| == |b.items| && forall i :: 0 <= i < |a.items| ==> PyEq(a.items[i], b.items[i])
    else SameScalar(a, b)
  }

  // ---------------------------------------------------------------------------------------------
  // The change list, with structured paths

  function Under(step: Step, c: Change<Path>): Change<Path> {
    match c
    case Added(p, v) => Added([step] + p, v)
    case Removed(p, v) => Removed([step] + p, v)
    case Changed(p, v, w) => Changed([step] + p, v, w)
  }

  function AllUnder(step: Step, changes: seq<Change<Path>>): seq<Change<Path>> {
    if changes == [] then [] else [Under(step, changes[0])] + AllUnder(step, changes[1..])
  }

  /** `sorted(set(old) | set(new))` */
  function UnionKeys(old_: Json, new_: Json): (keys: seq<string>)
    requires old_.Obj? && new_.Obj?
    ensures forall i :: 0 <= i < |keys| ==> keys[i] in old_.fields || keys[i] in new_.fields
    ensures NoDuplicates(keys) && |keys| == |old_.fields.Keys + new_.fields.Keys|
    ensures forall k :: k in keys <==> k in old_.fields.Keys + new_.fields.Keys
  {
    SortedStrings(old_.fields.Keys + new_.fields.Keys)
  }

  function Diff(old_: Json, new_: Json): seq<Change<Path>>
    decreases old_, 1, 0
  {
    if old_.Obj? && new_.Obj? then DiffKeys(|UnionKeys(old_, new_)|, UnionKeys(old_, new_), old_, new_)
    else if old_.Arr? && new_.Arr? then DiffItems(Max(|old_.items|, |new_.items|), old_, new_)
    else if !SameScalar(old_, new_) then [Changed([], old_, new_)]
    else []
  }

  function Max(a: nat, b: nat): nat {
    if a < b then b else a
  }

  /** What one key contributes. */
  function DiffKey(k: string, old_: Json, new_: Json): seq<Change<Path>>
    requires old_.Obj? && new_.Obj? && (k in old_.fields || k in new_.fields)
    decreases old_, 0, 0
  {
    if k !in old_.fields then [Added([Key(k)], new_.fields[k])]
    else if k !in new_.fields then [Removed([Key(k)], old_.fields[k])]
    else AllUnder(Key(k), Diff(old_.fields[k], new_.fields[k]))
  }

  /** What the first `n` keys contribute. */
  function DiffKeys(n: nat, keys: seq<string>, old_: Json, new_: Json): seq<Change<Path>>
    requires old_.Obj? && new_.Obj? && n <= |keys|
    requires forall i :: 0 <= i < |keys| ==> keys[i] in old_.fields || keys[i] in new_.fields
    decreases old_, 0, n + 1
  {
    if n == 0 then [] else DiffKeys(n - 1, keys, old_, new_) + DiffKey(keys[n - 1], old_, new_)
  }

  function DiffItem(i: nat, old_: Json, new_: Json): seq<Change<Path>>
    requires old_.Arr? && new_.Arr? && (i < |old_.items| || i < |new_.items|)
    decreases old_, 0, 0
  {
    if i >= |old_.items| then [Added([Index(i)], new_.items[i])]
    else if i >= |new_.items| then [Removed([Index(i)], old_.items[i])]
    else AllUnder(Index(i), Diff(old_.items[i], new_.items[i]))
  }

  /** What the first `n` indices contribute. */
  function DiffItems(n: nat, old_: Json, new_: Json): seq<Change<Path>>
    requires old_.Arr? && new_.Arr? && n <= Max(|old_.items|, |new_.items|)
    decreases old_, 0, n + 1
  {
    if n == 0 then [] else DiffItems(n - 1, old_, new_) + DiffItem(n - 1, old_, new_)
  }

  // ---------------------------------------------------------------------------------------------
  // The change list, with paths as text

  function JoinKey(prefix: string, key: string): string {
    if prefix == "" then key else prefix + "." + key
  }

  function JoinIndex(prefix: string, i: nat): string {
    prefix + ['['] + Decimal(i) + [']']
  }

  function JoinStep(prefix: string, step: Step): string {
    match step case Key(k) => JoinKey(prefix, k) case Index(i) => JoinIndex(prefix, i)
  }

  function TextFrom(prefix: string, path: Path): string
    decreases |path|
  {
    if path == [] then prefix else TextFrom(JoinStep(prefix, path[0]), path[1..])
  }

  function Texted(prefix: string, c: Change<Path>): Change<string> {
    match c
    case Added(p, v) => Added(TextFrom(prefix, p), v)
    case Removed(p, v) => Removed(TextFrom(prefix, p), v)
    case Changed(p, v, w) => Changed(TextFrom(prefix, p), v, w)
  }

  function Texts(prefix: string, changes: seq<Change<Path>>): (r: seq<Change<string>>)
    ensures |r| == |changes| && forall i :: 0 <= i < |r| ==> r[i] == Texted(prefix, changes[i])
  {
    seq(|changes|, i requires 0 <= i < |changes| => Texted(prefix, changes[i]))
  }

  lemma {:induction false} AllUnderAt(step: Step, changes: seq<Change<Path>>)
    ensures |AllUnder(step, changes)| == |changes|
    ensures forall i :: 0 <= i < |changes| ==> AllUnder(step, changes)[i] == Under(step, changes[i])
  {
    if changes != [] {
      AllUnderAt(step, changes[1..]);
    }
  }

  lemma TextsUnder(prefix: string, step: Step, changes: seq<Change<Path>>)
    ensures Texts(prefix, AllUnder(step, changes)) == Texts(JoinStep(prefix, step), changes)
  {
    AllUnderAt(step, changes);
    forall i | 0 <= i < |changes|
      ensures Texted(prefix, Under(step, changes[i])) == Texted(JoinStep(prefix, step), changes[i])
    {
      var p := changes[i].path;
      assert ([step] + p)[0] == step && ([step] + p)[1..] == p;
    }
  }

  lemma TextsAppend(prefix: string, a: seq<Change<Path>>, b: seq<Change<Path>>)
    ensures Texts(prefix, a + b) == Texts(prefix, a) + Texts(prefix, b)
  {
  }

  lemma TextOfStep(prefix: string, step: Step)
    ensures TextFrom(prefix, [step]) == JoinStep(prefix, step)
  {
    assert [step][1..] == [];
  }

  /** `_diff_values`: the paths of the changes extend `path`. */
  method DiffValues(path: string, old_: Json, new_: Json) returns (changes: seq<Change<string>>)
    ensures changes == Texts(path, Diff(old_, new_))
    decreases old_, 1
  {
    if old_.Obj? && new_.Obj? {
      changes := DiffObjects(path, old_, new_);
    } else if old_.Arr? && new_.Arr? {
      changes := DiffArrays(path, old_, new_);
    } else if !SameScalar(old_, new_) {
      changes := [Changed(path, old_, new_)];
    } else {
      changes := [];
    }
  }

  /** The turn of the loop over keys. */
  method DiffField(path: string, key: string, old_: Json, new_: Json) returns (changes: seq<Change<string>>)
    requires old_.Obj? && new_.Obj? && (key in old_.fields || key in new_.fields)
    ensures changes == Texts(path, DiffKey(key, old_, new_))
    decreases old_, 0, 0
  {
    var nextPath := JoinKey(path, key);
    TextOfStep(path, Key(key));
    if key !in old_.fields {
      changes := [Added(nextPath, new_.fields[key])];
    } else if key !in new_.fields {
      changes := [Removed(nextPath, old_.fields[key])];
    } else {
      changes := DiffValues(nextPath, old_.fields[key], new_.fields[key]);
      TextsUnder(path, Key(key), Diff(old_.fields[key], new_.fields[key]));
    }
  }

  method DiffObjects(path: string, old_: Json, new_: Json) returns (changes: seq<Change<string>>)
    requires old_.Obj? && new_.Obj?
    ensures changes == Texts(path, Diff(old_, new_))
    decreases old_, 0, 1
  {
    changes := [];
    var keys := UnionKeys(old_, new_);
    for n := 0 to |keys|
      invariant changes == Texts(path, DiffKeys(n, keys, old_, new_))
    {
      var here := DiffField(path, keys[n], old_, new_);
      TextsAppend(path, DiffKeys(n, keys, old_, new_), DiffKey(keys[n], old_, new_));
      changes := changes + here;
    }
  }

  /** The turn of the loop over indices. */
  method DiffElement(path: string, i: nat, old_: Json, new_: Json) returns (changes: seq<Change<string>>)
    requires old_.Arr? && new_.Arr? && (i < |old_.items| || i < |new_.items|)
    ensures changes == Texts(path, DiffItem(i, old_, new_))
    decreases old_, 0, 0
  {
    var nextPath := JoinIndex(path, i);
    TextOfStep(path, Index(i));
    if i >= |old_.items| {
      changes := [Added(nextPath, new_.items[i])];
    } else if i >= |new_.items| {
      changes := [Removed(nextPath, old_.items[i])];
    } else {
      changes := DiffValues(nextPath, old_.items[i], new_.items[i]);
      TextsUnder(path, Index(i), Diff(old_.items[i], new_.items[i]));
    }
  }

  method DiffArrays(path: string, old_: Json, new_: Json) returns (changes: seq<Change<string>>)
    requires old_.Arr? && new_.Arr?
    ensures changes == Texts(path, Diff(old_, new_))
    decreases old_, 0, 1
  {
    changes := [];
    var maxLen := Max(|old_.items|, |new_.items|);
    for i := 0 to maxLen
      invariant changes == Texts(path, DiffItems(i, old_, new_))
    {
      var here := DiffElement(path, i, old_, new_);
      TextsAppend(path, DiffItems(i, old_, new_), DiffItem(i, old_, new_));
      changes := changes + here;
    }
  }

  // ---------------------------------------------------------------------------------------------
  // Replaying a change list

  /** Carries out one change.  A removed index is always the end of its list, which it cuts off;
      an added one extends it.  A change whose path does not exist has no effect. */
  function Apply(value: Json, c: Change<Path>): Json
    decreases |c.path|
  {
    if c.path == [] then (if c.Removed? then value else c.new_)
    else
      match (c.path[0], value)
      case (Key(k), Obj(m)) =>
        if |c.path| > 1 then (if k in m then Obj(m[k := Apply(m[k], Tail(c))]) else value)
        else if c.Removed? then Obj(m - {k})
        else Obj(m[k := c.new_])
      case (Index(i), Arr(s)) =>
        if |c.path| > 1 then (if i < |s| then Arr(s[i := Apply(s[i], Tail(c))]) else value)
        else if c.Removed? then (if i < |s| then Arr(s[..i]) else value)
        else if i < |s| then Arr(s[i := c.new_])
        else Arr(s + [c.new_])
      case _ => value
  }

  function Tail(c: Change<Path>): (t: Change<Path>)
    requires c.path != []
    ensures t.path == c.path[1..]
  {
    match c
    case Added(p, v) => Added(p[1..], v)
    case Removed(p, v) => Removed(p[1..], v)
    case Changed(p, v, w) => Changed(p[1..], v, w)
  }

  function Replay(value: Json, changes: seq<Change<Path>>): Json
    decreases |changes|
  {
    if changes == [] then value else Replay(Apply(value, changes[0]), changes[1..])
  }

  lemma {:induction false} ReplayAppend(value: Json, all: seq<Change<Path>>, a: seq<Change<Path>>, b: seq<Change<Path>>)
    requires all == a + b
    ensures Replay(value, all) == Replay(Replay(value, a), b)
    decreases |a|
  {
    if a == [] {
      assert all == b;
    } else {
      ReplayAppend(Apply(value, a[0]), all[1..], a[1..], b);
    }
  }

  /** Only a change of value is reported at the path of a value itself. */
  ghost predicate WellPlaced(changes: seq<Change<Path>>) {
    forall i :: 0 <= i < |changes| ==> changes[i].path == [] ==> changes[i].Changed?
  }

  ghost predicate BelowRoot(changes: seq<Change<Path>>) {
    forall i :: 0 <= i < |changes| ==> changes[i].path != []
  }

  lemma UnderIsBelowRoot(step: Step, changes: seq<Change<Path>>)
    ensures BelowRoot(AllUnder(step, changes))
  {
    AllUnderAt(step, changes);
  }

  lemma DiffKeyBelowRoot(k: string, old_: Json, new_: Json)
    requires old_.Obj? && new_.Obj? && (k in old_.fields || k in new_.fields)
    ensures BelowRoot(DiffKey(k, old_, new_))
  {
    if k in old_.fields && k in new_.fields {
      UnderIsBelowRoot(Key(k), Diff(old_.fields[k], new_.fields[k]));
    }
  }

  lemma {:induction false} DiffKeysBelowRoot(n: nat, keys: seq<string>, old_: Json, new_: Json)
    requires old_.Obj? && new_.Obj? && n <= |keys|
    requires forall i :: 0 <= i < |keys| ==> keys[i] in old_.fields || keys[i] in new_.fields
    ensures BelowRoot(DiffKeys(n, keys, old_, new_))
  {
    if n != 0 {
      DiffKeysBelowRoot(n - 1, keys, old_, new_);
      DiffKeyBelowRoot(keys[n - 1], old_, new_);
    }
  }

  lemma {:induction false} DiffItemsBelowRoot(n: nat, old_: Json, new_: Json)
    requires old_.Arr? && new_.Arr? && n <= Max(|old_.items|, |new_.items|)
    ensures BelowRoot(DiffItems(n, old_, new_))
  {
    if n != 0 {
      DiffItemsBelowRoot(n - 1, old_, new_);
      if n <= |old_.items| && n <= |new_.items| {
        UnderIsBelowRoot(Index(n - 1), Diff(old_.items[n - 1], new_.items[n - 1]));
      }
      assert BelowRoot(DiffItem(n - 1, old_, new_));
    }
  }

  lemma DiffWellPlaced(old_: Json, new_: Json)
    ensures WellPlaced(Diff(old_, new_))
  {
    if old_.Obj? && new_.Obj? {
      DiffKeysBelowRoot(|UnionKeys(old_, new_)|, UnionKeys(old_, new_), old_, new_);
    } else if old_.Arr? && new_.Arr? {
      DiffItemsBelowRoot(Max(|old_.items|, |new_.items|), old_, new_);
    }
  }

  lemma ApplyUnderKey(m: map<string, Json>, k: string, c: Change<Path>)
    requires k in m && (c.path == [] ==> c.Changed?)
    ensures Apply(Obj(m), Under(Key(k), c)) == Obj(m[k := Apply(m[k], c)])
  {
    assert ([Key(k)] + c.path)[1..] == c.path;
    assert Tail(Under(Key(k), c)) == c;
  }

  lemma ApplyUnderIndex(s: seq<Json>, i: nat, c: Change<Path>)
    requires i < |s| && (c.path == [] ==> c.Changed?)
    ensures Apply(Arr(s), Under(Index(i), c)) == Arr(s[i := Apply(s[i], c)])
  {
    assert ([Index(i)] + c.path)[1..] == c.path;
    assert Tail(Under(Index(i), c)) == c;
  }

  /** Changes below a key act on the value of that key. */
  lemma {:induction false} ReplayUnderKey(m: map<string, Json>, k: string, changes: seq<Change<Path>>)
    requires k in m && WellPlaced(changes)
    ensures Replay(Obj(m), AllUnder(Key(k), changes)) == Obj(m[k := Replay(m[k], changes)])
    decreases |changes|
  {
    if changes == [] {
      assert m[k := m[k]] == m;
    } else {
      ApplyUnderKey(m, k, changes[0]);
      var next := Apply(m[k], changes[0]);
      ReplayUnderKey(m[k := next], k, changes[1..]);
      assert m[k := next][k := Replay(next, changes[1..])] == m[k := Replay(next, changes[1..])];
    }
  }

  /** Changes below an index act on the element at that index. */
  lemma {:induction false} ReplayUnderIndex(s: seq<Json>, i: nat, changes: seq<Change<Path>>)
    requires i < |s| && WellPlaced(changes)
    ensures Replay(Arr(s), AllUnder(Index(i), changes)) == Arr(s[i := Replay(s[i], changes)])
    decreases |changes|
  {
    if changes == [] {
      assert s[i := s[i]] == s;
    } else {
      ApplyUnderIndex(s, i, changes[0]);
      var next := Apply(s[i], changes[0]);
      ReplayUnderIndex(s[i := next], i, changes[1..]);
      assert s[i := next][i := Replay(next, changes[1..])] == s[i := Replay(next, changes[1..])];
    }
  }

  // ---------------------------------------------------------------------------------------------
  // What replaying rebuilds

  /** The new value, except that a scalar that Python calls equal to the old one stays as it was. */
  function Rebuilt(old_: Json, new_: Json): Json {
    if old_.Obj? && new_.Obj? then
      Obj(map k | k in new_.fields ::
            if k in old_.fields then Rebuilt(old_.fields[k], new_.fields[k]) else new_.fields[k])
    else if old_.Arr? && new_.Arr? then
      Arr(seq(|new_.items|, i requires 0 <= i < |new_.items| =>
            if i < |old_.items| then Rebuilt(old_.items[i], new_.items[i]) else new_.items[i]))
    else if SameScalar(old_, new_) then old_
    else new_
  }

  /** The object when the keys in `done` have been dealt with. */
  ghost function MergedFields(done: set<string>, old_: Json, new_: Json): map<string, Json>
    requires old_.Obj? && new_.Obj?
  {
    map k | k in old_.fields.Keys + new_.fields.Keys && (if k in done then k in new_.fields else k in old_.fields) ::
      if k !in done then old_.fields[k]
      else if k in old_.fields then Rebuilt(old_.fields[k], new_.fields[k])
      else new_.fields[k]
  }

  lemma {:induction false} ReplayKeys(n: nat, keys: seq<string>, old_: Json, new_: Json)
    requires old_.Obj? && new_.Obj? && NoDuplicates(keys) && n <= |keys|
    requires forall i :: 0 <= i < |keys| ==> keys[i] in old_.fields || keys[i] in new_.fields
    ensures Replay(old_, DiffKeys(n, keys, old_, new_)) == Obj(MergedFields((set k | k in keys[..n]), old_, new_))
    decreases old_, 0, n + 1
  {
    if n == 0 {
      MergedNoFields(old_, new_);
    } else {
      var k := keys[n - 1];
      var front, upTo := keys[..n - 1], keys[..n];
      var done := set x | x in front;
      ReplayKeys(n - 1, keys, old_, new_);
      ReplayAppend(old_, DiffKeys(n, keys, old_, new_), DiffKeys(n - 1, keys, old_, new_), DiffKey(k, old_, new_));
      assert upTo == front + [k];
      ReplayKey(k, done, (set x | x in upTo), old_, new_);
    }
  }

  lemma MergedNoFields(old_: Json, new_: Json)
    requires old_.Obj? && new_.Obj?
    ensures MergedFields({}, old_, new_) == old_.fields
  {
  }

  lemma ReplayKey(k: string, done: set<string>, more: set<string>, old_: Json, new_: Json)
    requires old_.Obj? && new_.Obj? && (k in old_.fields || k in new_.fields) && k !in done && more == done + {k}
    ensures Replay(Obj(MergedFields(done, old_, new_)), DiffKey(k, old_, new_)) == Obj(MergedFields(more, old_, new_))
    decreases old_, 0, 0
  {
    var m := MergedFields(done, old_, new_);
    if k !in old_.fields {
      MergeAdded(k, done, more, old_, new_);
    } else if k !in new_.fields {
      MergeRemoved(k, done, more, old_, new_);
    } else {
      ReplayRebuilds(old_.fields[k], new_.fields[k]);
      DiffWellPlaced(old_.fields[k], new_.fields[k]);
      MergeChanged(k, done, more, old_, new_);
      ReplayUnderKey(m, k, Diff(old_.fields[k], new_.fields[k]));
    }
  }

  lemma MergeAdded(k: string, done: set<string>, more: set<string>, old_: Json, new_: Json)
    requires old_.Obj? && new_.Obj? && k !in old_.fields && k in new_.fields && more == done + {k}
    ensures MergedFields(done, old_, new_)[k := new_.fields[k]] == MergedFields(more, old_, new_)
  {
  }

  lemma MergeRemoved(k: string, done: set<string>, more: set<string>, old_: Json, new_: Json)
    requires old_.Obj? && new_.Obj? && k in old_.fields && k !in new_.fields && more == done + {k}
    ensures MergedFields(done, old_, new_) - {k} == MergedFields(more, old_, new_)
  {
  }

  lemma MergeChanged(k: string, done: set<string>, more: set<string>, old_: Json, new_: Json)
    requires old_.Obj? && new_.Obj? && k in old_.fields && k in new_.fields && k !in done && more == done + {k}
    ensures k in MergedFields(done, old_, new_) && MergedFields(done, old_, new_)[k] == old_.fields[k]
    ensures MergedFields(done, old_, new_)[k := Rebuilt(old_.fields[k], new_.fields[k])]
         == MergedFields(more, old_, new_)
  {
  }

  /** The list when the first `n` indices have been dealt with. */
  ghost function MergedItems(n: nat, old_: Json, new_: Json): seq<Json>
    requires old_.Arr? && new_.Arr? && n <= Max(|old_.items|, |new_.items|)
  {
    seq(if n > |old_.items| then n else if n > |new_.items| then |new_.items| else |old_.items|,
        i requires 0 <= i < Max(|old_.items|, |new_.items|)
                   && (i >= n ==> i < |old_.items|) && (i < n ==> i < |new_.items|) =>
          if i >= n then old_.items[i]
          else if i < |old_.items| then Rebuilt(old_.items[i], new_.items[i])
          else new_.items[i])
  }

  lemma {:induction false} ReplayItems(n: nat, old_: Json, new_: Json)
    requires old_.Arr? && new_.Arr? && n <= Max(|old_.items|, |new_.items|)
    ensures Replay(old_, DiffItems(n, old_, new_)) == Arr(MergedItems(n, old_, new_))
    decreases old_, 0, n + 1
  {
    if n == 0 {
      MergedNoItems(old_, new_);
    } else {
      var i := n - 1;
      ReplayItems(i, old_, new_);
      var before, here := DiffItems(i, old_, new_), DiffItem(i, old_, new_);
      ReplayAppend(old_, DiffItems(n, old_, new_), before, here);
      ReplayItem(i, n, old_, new_);
    }
  }

  lemma ReplayItem(i: nat, next: nat, old_: Json, new_: Json)
    requires old_.Arr? && new_.Arr? && i < Max(|old_.items|, |new_.items|) && next == i + 1
    ensures Replay(Arr(MergedItems(i, old_, new_)), DiffItem(i, old_, new_)) == Arr(MergedItems(next, old_, new_))
    decreases old_, 0, 0
  {
    var s := MergedItems(i, old_, new_);
    if i >= |old_.items| {
      assert s + [new_.items[i]] == MergedItems(next, old_, new_);
    } else if i >= |new_.items| {
      assert (if i < |s| then s[..i] else s) == MergedItems(next, old_, new_);
    } else {
      ReplayRebuilds(old_.items[i], new_.items[i]);
      DiffWellPlaced(old_.items[i], new_.items[i]);
      MergeItem(i, next, old_, new_);
      ReplayUnderIndex(s, i, Diff(old_.items[i], new_.items[i]));
    }
  }

  lemma MergeItem(i: nat, next: nat, old_: Json, new_: Json)
    requires old_.Arr? && new_.Arr? && i < |old_.items| && i < |new_.items| && next == i + 1
    ensures i < |MergedItems(i, old_, new_)| && MergedItems(i, old_, new_)[i] == old_.items[i]
    ensures MergedItems(i, old_, new_)[i := Rebuilt(old_.items[i], new_.items[i])] == MergedItems(next, old_, new_)
  {
  }

  lemma MergedNoItems(old_: Json, new_: Json)
    requires old_.Arr? && new_.Arr?
    ensures MergedItems(0, old_, new_) == old_.items
  {
  }

  lemma MergedAllItems(old_: Json, new_: Json)
    requires old_.Arr? && new_.Arr?
    ensures Arr(MergedItems(Max(|old_.items|, |new_.items|), old_, new_)) == Rebuilt(old_, new_)
  {
    assert MergedItems(Max(|old_.items|, |new_.items|), old_, new_) == Rebuilt(old_, new_).items;
  }

  lemma MergedAllFields(old_: Json, new_: Json)
    requires old_.Obj? && new_.Obj?
    ensures Obj(MergedFields(old_.fields.Keys + new_.fields.Keys, old_, new_)) == Rebuilt(old_, new_)
  {
    assert MergedFields(old_.fields.Keys + new_.fields.Keys, old_, new_) == Rebuilt(old_, new_).fields;
  }

  /** Replaying the change list of two values on the old one gives `Rebuilt`. */
  lemma {:induction false} ReplayRebuilds(old_: Json, new_: Json)
    ensures Replay(old_, Diff(old_, new_)) == Rebuilt(old_, new_)
    decreases old_, 1, 0
  {
    if old_.Obj? && new_.Obj? {
      var all := old_.fields.Keys + new_.fields.Keys;
      var keys := SortedStrings(all);
      ReplayKeys(|keys|, keys, old_, new_);
      assert keys[..|keys|] == keys && (set k | k in keys) == all;
      MergedAllFields(old_, new_);
    } else if old_.Arr? && new_.Arr? {
      var n := Max(|old_.items|, |new_.items|);
      ReplayItems(n, old_, new_);
      MergedAllItems(old_, new_);
    }
  }

  /** Rebuilding loses nothing that Python can tell apart. */
  lemma {:induction false} RebuiltIsEqual(old_: Json, new_: Json)
    ensures PyEq(Rebuilt(old_, new_), new_)
  {
    if old_.Obj? && new_.Obj? {
      forall k | k in new_.fields ensures PyEq(Rebuilt(old_, new_).fields[k], new_.fields[k]) {
        if k in old_.fields {
          RebuiltIsEqual(old_.fields[k], new_.fields[k]);
        } else {
          PyEqReflexive(new_.fields[k]);
        }
      }
    } else if old_.Arr? && new_.Arr? {
      forall i | 0 <= i < |new_.items| ensures PyEq(Rebuilt(old_, new_).items[i], new_.items[i]) {
        if i < |old_.items| {
          RebuiltIsEqual(old_.items[i], new_.items[i]);
        } else {
          PyEqReflexive(new_.items[i]);
        }
      }
    } else if !SameScalar(old_, new_) {
      PyEqReflexive(new_);
    }
  }

  lemma {:induction false} PyEqSymmetric(a: Json, b: Json)
    requires PyEq(a, b)
    ensures PyEq(b, a)
  {
    if a.Obj? && b.Obj? {
      forall k | k in b.fields ensures PyEq(b.fields[k], a.fields[k]) {
        PyEqSymmetric(a.fields[k], b.fields[k]);
      }
    } else if a.Arr? && b.Arr? {
      forall i | 0 <= i < |b.items| ensures PyEq(b.items[i], a.items[i]) {
        PyEqSymmetric(a.items[i], b.items[i]);
      }
    }
  }

  lemma {:induction false} PyEqTransitive(a: Json, b: Json, c: Json)
    requires PyEq(a, b) && PyEq(b, c)
    ensures PyEq(a, c)
  {
    if a.Obj? && b.Obj? && c.Obj? {
      forall k | k in a.fields ensures PyEq(a.fields[k], c.fields[k]) {
        PyEqTransitive(a.fields[k], b.fields[k], c.fields[k]);
      }
    } else if a.Arr? && b.Arr? && c.Arr? {
      forall i | 0 <= i < |a.items| ensures PyEq(a.items[i], c.items[i]) {
        PyEqTransitive(a.items[i], b.items[i], c.items[i]);
      }
    }
  }

  lemma {:induction false} PyEqReflexive(a: Json)
    ensures PyEq(a, a)
  {
    match a {
      case Obj(m) =>
        forall k | k in m ensures PyEq(m[k], m[k]) {
          PyEqReflexive(m[k]);
        }
      case Arr(s) =>
        forall i | 0 <= i < |s| ensures PyEq(s[i], s[i]) {
          PyEqReflexive(s[i]);
        }
      case _ =>
    }
  }

  /** The diff loses nothing: replayed on the old value it gives a value equal to the new one. */
  lemma ReplayLosesNothing(old_: Json, new_: Json)
    ensures PyEq(Replay(old_, Diff(old_, new_)), new_)
  {
    ReplayRebuilds(old_, new_);
    RebuiltIsEqual(old_, new_);
  }

  /** Somewhere both values hold scalars that Python calls equal although they differ, such as
      true and 1. */
  ghost predicate Conflated(old_: Json, new_: Json) {
    if old_.Obj? && new_.Obj? then
      exists k :: k in old_.fields && k in new_.fields && Conflated(old_.fields[k], new_.fields[k])
    else if old_.Arr? && new_.Arr? then
      exists i :: 0 <= i < |old_.items| && i < |new_.items| && Conflated(old_.items[i], new_.items[i])
    else SameScalar(old_, new_) && old_ != new_
  }

  lemma {:induction false} RebuiltIsNew(old_: Json, new_: Json)
    ensures Rebuilt(old_, new_) == new_ <==> !Conflated(old_, new_)
  {
    var r := Rebuilt(old_, new_);
    if old_.Obj? && new_.Obj? {
      forall k | k in old_.fields && k in new_.fields
        ensures r.fields[k] == new_.fields[k] <==> !Conflated(old_.fields[k], new_.fields[k])
      {
        RebuiltIsNew(old_.fields[k], new_.fields[k]);
      }
      if !Conflated(old_, new_) {
        assert r.fields == new_.fields;
      }
    } else if old_.Arr? && new_.Arr? {
      forall i | 0 <= i < |old_.items| && i < |new_.items|
        ensures r.items[i] == new_.items[i] <==> !Conflated(old_.items[i], new_.items[i])
      {
        RebuiltIsNew(old_.items[i], new_.items[i]);
      }
      if !Conflated(old_, new_) {
        assert r.items == new_.items;
      }
    }
  }

  /** The replayed value is the new value itself, unless the diff has overlooked a scalar that
      changed into one that Python calls equal to it. */
  lemma ReplayIsExact(old_: Json, new_: Json)
    ensures Replay(old_, Diff(old_, new_)) == new_ <==> !Conflated(old_, new_)
  {
    ReplayRebuilds(old_, new_);
    RebuiltIsNew(old_, new_);
  }

  /** For instance, replacing True by 1 is not reported. */
  lemma OneReadsAsTrue()
    ensures var old_, new_ := Arr([Bool(true)]), Arr([Int(1)]);
      Diff(old_, new_) == [] && Replay(old_, Diff(old_, new_)) != new_
  {
    var old_, new_ := Arr([Bool(true)]), Arr([Int(1)]);
    assert PyEq(old_.items[0], new_.items[0]);
    NoChanges(old_, new_);
    assert old_.items[0] != new_.items[0];
  }

  // ---------------------------------------------------------------------------------------------
  // The change list the other way round

  function Reversed(c: Change<Path>): Change<Path> {
    match c
    case Added(p, v) => Removed(p, v)
    case Removed(p, v) => Added(p, v)
    case Changed(p, v, w) => Changed(p, w, v)
  }

  function AllReversed(changes: seq<Change<Path>>): seq<Change<Path>> {
    if changes == [] then [] else [Reversed(changes[0])] + AllReversed(changes[1..])
  }

  lemma {:induction false} ReversedAppend(all: seq<Change<Path>>, a: seq<Change<Path>>, b: seq<Change<Path>>)
    requires all == a + b
    ensures AllReversed(all) == AllReversed(a) + AllReversed(b)
  {
    if a == [] {
      assert all == b;
    } else {
      ReversedAppend(all[1..], a[1..], b);
    }
  }

  lemma {:induction false} ReversedUnder(step: Step, changes: seq<Change<Path>>)
    ensures AllReversed(AllUnder(step, changes)) == AllUnder(step, AllReversed(changes))
  {
    if changes != [] {
      ReversedUnder(step, changes[1..]);
      assert AllUnder(step, changes)[1..] == AllUnder(step, changes[1..]);
    }
  }

  lemma {:induction false} ReversedKeys(n: nat, keys: seq<string>, old_: Json, new_: Json)
    requires old_.Obj? && new_.Obj? && n <= |keys|
    requires forall i :: 0 <= i < |keys| ==> keys[i] in old_.fields || keys[i] in new_.fields
    ensures DiffKeys(n, keys, new_, old_) == AllReversed(DiffKeys(n, keys, old_, new_))
    decreases old_, 0, n + 1
  {
    if n != 0 {
      var k := keys[n - 1];
      ReversedKeys(n - 1, keys, old_, new_);
      ReversedAppend(DiffKeys(n, keys, old_, new_), DiffKeys(n - 1, keys, old_, new_), DiffKey(k, old_, new_));
      ReversedKey(k, old_, new_);
    }
  }

  lemma ReversedKey(k: string, old_: Json, new_: Json)
    requires old_.Obj? && new_.Obj? && (k in old_.fields || k in new_.fields)
    ensures DiffKey(k, new_, old_) == AllReversed(DiffKey(k, old_, new_))
    decreases old_, 0, 0
  {
    if k in old_.fields && k in new_.fields {
      DiffReversed(old_.fields[k], new_.fields[k]);
      ReversedUnder(Key(k), Diff(old_.fields[k], new_.fields[k]));
    }
  }

  lemma {:induction false} ReversedItems(n: nat, old_: Json, new_: Json)
    requires old_.Arr? && new_.Arr? && n <= Max(|old_.items|, |new_.items|)
    ensures DiffItems(n, new_, old_) == AllReversed(DiffItems(n, old_, new_))
    decreases old_, 0, n + 1
  {
    if n != 0 {
      var i := n - 1;
      ReversedItems(i, old_, new_);
      ReversedAppend(DiffItems(n, old_, new_), DiffItems(i, old_, new_), DiffItem(i, old_, new_));
      ReversedItem(i, old_, new_);
    }
  }

  lemma ReversedItem(i: nat, old_: Json, new_: Json)
    requires old_.Arr? && new_.Arr? && (i < |old_.items| || i < |new_.items|)
    ensures DiffItem(i, new_, old_) == AllReversed(DiffItem(i, old_, new_))
    decreases old_, 0, 0
  {
    if i < |old_.items| && i < |new_.items| {
      DiffReversed(old_.items[i], new_.items[i]);
      ReversedUnder(Index(i), Diff(old_.items[i], new_.items[i]));
    }
  }

  /** Comparing in the other direction gives the same list with the two sides exchanged. */
  lemma {:induction false} DiffReversed(old_: Json, new_: Json)
    ensures Diff(new_, old_) == AllReversed(Diff(old_, new_))
    decreases old_, 1, 0
  {
    if old_.Obj? && new_.Obj? {
      assert old_.fields.Keys + new_.fields.Keys == new_.fields.Keys + old_.fields.Keys;
      ReversedKeys(|UnionKeys(old_, new_)|, UnionKeys(old_, new_), old_, new_);
    } else if old_.Arr? && new_.Arr? {
      ReversedItems(Max(|old_.items|, |new_.items|), old_, new_);
    }
  }

  // ---------------------------------------------------------------------------------------------
  // When nothing changed

  ghost predicate SameField(k: string, old_: Json, new_: Json)
    requires old_.Obj? && new_.Obj?
  {
    k in old_.fields && k in new_.fields && PyEq(old_.fields[k], new_.fields[k])
  }

  lemma NoKeyChange(k: string, old_: Json, new_: Json)
    requires old_.Obj? && new_.Obj? && (k in old_.fields || k in new_.fields)
    ensures DiffKey(k, old_, new_) == [] <==> SameField(k, old_, new_)
    decreases old_, 0, 0
  {
    if k in old_.fields && k in new_.fields {
      NoChanges(old_.fields[k], new_.fields[k]);
      AllUnderAt(Key(k), Diff(old_.fields[k], new_.fields[k]));
    }
  }

  lemma {:induction false} NoKeyChanges(n: nat, keys: seq<string>, old_: Json, new_: Json)
    requires old_.Obj? && new_.Obj? && n <= |keys|
    requires forall i :: 0 <= i < |keys| ==> keys[i] in old_.fields || keys[i] in new_.fields
    ensures |DiffKeys(n, keys, old_, new_)| == 0 <==> forall i :: 0 <= i < n ==> SameField(keys[i], old_, new_)
    decreases old_, 0, n + 1
  {
    hide DiffKey, SameField, PyEq;
    if n != 0 {
      NoKeyChanges(n - 1, keys, old_, new_);
      NoKeyChange(keys[n - 1], old_, new_);
    }
  }

  ghost predicate SameElement(i: nat, old_: Json, new_: Json)
    requires old_.Arr? && new_.Arr?
  {
    i < |old_.items| && i < |new_.items| && PyEq(old_.items[i], new_.items[i])
  }

  lemma NoItemChange(i: nat, old_: Json, new_: Json)
    requires old_.Arr? && new_.Arr? && (i < |old_.items| || i < |new_.items|)
    ensures |DiffItem(i, old_, new_)| == 0 <==> SameElement(i, old_, new_)
    decreases old_, 0, 0
  {
    if i < |old_.items| && i < |new_.items| {
      NoChanges(old_.items[i], new_.items[i]);
      AllUnderAt(Index(i), Diff(old_.items[i], new_.items[i]));
    }
  }

  ghost predicate SameItems(n: nat, old_: Json, new_: Json)
    requires old_.Arr? && new_.Arr?
  {
    forall i :: 0 <= i < n ==> SameElement(i, old_, new_)
  }

  lemma SameItemsNext(n: nat, old_: Json, new_: Json)
    requires old_.Arr? && new_.Arr? && n != 0
    ensures SameItems(n, old_, new_) <==> SameItems(n - 1, old_, new_) && SameElement(n - 1, old_, new_)
  {
    hide SameElement;
  }

  lemma {:induction false} NoItemChanges(n: nat, old_: Json, new_: Json)
    requires old_.Arr? && new_.Arr? && n <= Max(|old_.items|, |new_.items|)
    ensures |DiffItems(n, old_, new_)| == 0 <==> SameItems(n, old_, new_)
    decreases old_, 0, n + 1
  {
    hide DiffItem, SameElement, PyEq;
    if n != 0 {
      NoItemChanges(n - 1, old_, new_);
      NoItemChange(n - 1, old_, new_);
      SameItemsNext(n, old_, new_);
    }
  }

  /** The change list is empty exactly for values that Python calls equal. */
  lemma {:induction false} NoChanges(old_: Json, new_: Json)
    ensures Diff(old_, new_) == [] <==> PyEq(old_, new_)
    decreases old_, 1, 0
  {
    if old_.Obj? && new_.Obj? {
      var keys := UnionKeys(old_, new_);
      NoKeyChanges(|keys|, keys, old_, new_);
      KeysCovered(keys, old_, new_);
    } else if old_.Arr? && new_.Arr? {
      NoItemChanges(Max(|old_.items|, |new_.items|), old_, new_);
      ItemsCovered(old_, new_);
    }
  }

  lemma KeysCovered(keys: seq<string>, old_: Json, new_: Json)
    requires old_.Obj? && new_.Obj? && forall k :: k in keys <==> k in old_.fields.Keys + new_.fields.Keys
    ensures PyEq(old_, new_) <==> forall i :: 0 <= i < |keys| ==> SameField(keys[i], old_, new_)
  {
    if forall i :: 0 <= i < |keys| ==> SameField(keys[i], old_, new_) {
      forall k | k in old_.fields.Keys + new_.fields.Keys ensures SameField(k, old_, new_) {
        assert k in keys;
      }
      assert old_.fields.Keys == new_.fields.Keys;
    } else {
      var i :| 0 <= i < |keys| && !SameField(keys[i], old_, new_);
      assert keys[i] in keys;
    }
  }

  lemma ItemsCovered(old_: Json, new_: Json)
    requires old_.Arr? && new_.Arr?
    ensures PyEq(old_, new_) <==>
      forall i :: 0 <= i < Max(|old_.items|, |new_.items|) ==> SameElement(i, old_, new_)
  {
    var n := Max(|old_.items|, |new_.items|);
    if forall i :: 0 <= i < n ==> SameElement(i, old_, new_) {
      assert n > 0 ==> SameElement(n - 1, old_, new_);
      forall i | 0 <= i < |old_.items| ensures PyEq(old_.items[i], new_.items[i]) {
        assert SameElement(i, old_, new_);
      }
    }
  }
}
