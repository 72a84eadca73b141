/** What a change list reports, and in which order; and which scalars Python takes for equal. */
module JsonReports {
  import opened Wrappers
  import opened Ordering
  import opened Text
  import opened JsonDiff

  // ---------------------------------------------------------------------------------------------
  // Equality

  /** Numbers and booleans are equal by value, whatever their types; nothing else is equal across types. */
  lemma ScalarsCompare(m: int, n: int, x: real, y: real, a: bool, b: bool, s: string, t: string)
    ensures PyEq(Int(m), Int(n)) <==> m == n
    ensures PyEq(Int(n), Float(x)) <==> n as real == x
    ensures PyEq(Float(x), Float(y)) <==> x == y
    ensures PyEq(Bool(a), Bool(b)) <==> a == b
    ensures PyEq(Bool(a), Int(n)) <==> n == if a then 1 else 0
    ensures PyEq(Bool(a), Float(x)) <==> x == if a then 1.0 else 0.0
    ensures PyEq(Str(s), Str(t)) <==> s == t
    ensures PyEq(Null, Null) && !PyEq(Null, Int(n)) && !PyEq(Null, Bool(a)) && !PyEq(Null, Str(s))
    ensures !PyEq(Str(s), Int(n)) && !PyEq(Str(s), Float(x)) && !PyEq(Str(s), Bool(a))
  {
  }

  lemma ContainersCompare(items: seq<Json>, fields: map<string, Json>, other: Json)
    ensures !other.Arr? ==> !PyEq(Arr(items), other)
    ensures !other.Obj? ==> !PyEq(Obj(fields), other)
  {
  }

  // ---------------------------------------------------------------------------------------------
  // Paths as text

  lemma TwoSteps(first: Step, second: Step)
    ensures TextFrom("", [first, second]) == JoinStep(JoinStep("", first), second)
  {
    hide JoinStep;
    TextOfStep(JoinStep("", first), second);
    assert [first, second][1..] == [second];
  }

  /** A key below another is set off by a dot, an index is put in brackets. */
  lemma PathsAsText(key: string, below: string, i: nat)
    requires key != ""
    ensures TextFrom("", [Key(key)]) == key
    ensures TextFrom("", [Key(key), Key(below)]) == key + ['.'] + below
    ensures TextFrom("", [Key(key), Index(i)]) == key + ['['] + Decimal(i) + [']']
    ensures TextFrom("", [Index(i), Key(below)]) == (['['] + Decimal(i) + [']']) + ['.'] + below
  {
    hide TextFrom, Decimal;
    TextOfStep("", Key(key));
    TwoSteps(Key(key), Key(below));
    TwoSteps(Key(key), Index(i));
    TwoSteps(Index(i), Key(below));
    assert "." == ['.'];
    assert "" + ['['] + Decimal(i) + [']'] == ['['] + Decimal(i) + [']'];
  }

  // ---------------------------------------------------------------------------------------------
  // The order of a report

  predicate Below(c: Change<Path>, k: string) {
    c.path != [] && c.path[0] == Key(k)
  }

  /** Every change is below some key of the list, the keys in their order. */
  ghost predicate Follows(changes: seq<Change<Path>>, keys: seq<string>) {
    && (forall c :: c in changes ==> exists a :: 0 <= a < |keys| && Below(c, keys[a]))
    && (forall i, j, a, b ::
          0 <= i < j < |changes| && 0 <= a < |keys| && 0 <= b < |keys|
          && Below(changes[i], keys[a]) && Below(changes[j], keys[b])
          ==> a <= b)
  }

  lemma KeyChangesStart(k: string, old_: Json, new_: Json)
    requires old_.Obj? && new_.Obj? && (k in old_.fields || k in new_.fields)
    ensures forall c :: c in DiffKey(k, old_, new_) ==> Below(c, k)
  {
    if k in old_.fields && k in new_.fields {
      AllUnderAt(Key(k), Diff(old_.fields[k], new_.fields[k]));
    }
  }

  lemma {:induction false} KeysInOrder(n: nat, keys: seq<string>, old_: Json, new_: Json)
    requires old_.Obj? && new_.Obj? && n <= |keys| && NoDuplicates(keys)
    requires forall i :: 0 <= i < |keys| ==> keys[i] in old_.fields || keys[i] in new_.fields
    ensures Follows(DiffKeys(n, keys, old_, new_), keys[..n])
  {
    if n != 0 {
      KeysInOrder(n - 1, keys, old_, new_);
      KeyChangesStart(keys[n - 1], old_, new_);
      FollowsOneMore(DiffKeys(n - 1, keys, old_, new_), DiffKey(keys[n - 1], old_, new_), keys[..n]);
      assert keys[..n][..n - 1] == keys[..n - 1];
    }
  }

  lemma FollowsOneMore(before: seq<Change<Path>>, more: seq<Change<Path>>, keys: seq<string>)
    requires keys != [] && NoDuplicates(keys) && Follows(before, keys[..|keys| - 1])
    requires forall c :: c in more ==> Below(c, keys[|keys| - 1])
    ensures Follows(before + more, keys)
  {
    var changes, n := before + more, |keys| - 1;
    forall c | c in changes ensures exists a :: 0 <= a < |keys| && Below(c, keys[a]) {
      if c in before {
        var a :| 0 <= a < n && Below(c, keys[..n][a]);
        assert Below(c, keys[a]);
      } else {
        assert c in more && Below(c, keys[n]);
      }
    }
    forall i, j, a, b | 0 <= i < j < |changes| && 0 <= a < |keys| && 0 <= b < |keys|
      && Below(changes[i], keys[a]) && Below(changes[j], keys[b])
      ensures a <= b
    {
      if j >= |before| {
        assert changes[j] in more;
      } else {
        assert changes[i] in before && changes[j] in before;
        var x :| 0 <= x < n && Below(changes[i], keys[..n][x]);
        var y :| 0 <= y < n && Below(changes[j], keys[..n][y]);
        assert x == a && y == b;
      }
    }
  }

  ghost predicate ByKey(changes: seq<Change<Path>>) {
    && (forall c :: c in changes ==> c.path != [] && c.path[0].Key?)
    && (forall i, j :: 0 <= i < j < |changes| ==>
          changes[i] in changes && changes[j] in changes && Alphabetical(changes[i].path[0].k, changes[j].path[0].k))
  }

  lemma FollowingIsByKey(changes: seq<Change<Path>>, keys: seq<string>)
    requires Follows(changes, keys) && SortedBy(keys, LexLe)
    ensures ByKey(changes)
  {
    forall i, j | 0 <= i < j < |changes|
      ensures changes[i] in changes && changes[j] in changes
      ensures Alphabetical(changes[i].path[0].k, changes[j].path[0].k)
    {
      assert changes[i] in changes && changes[j] in changes;
      var a :| 0 <= a < |keys| && Below(changes[i], keys[a]);
      var b :| 0 <= b < |keys| && Below(changes[j], keys[b]);
      LexTotal(keys[a], keys[a]);
      LexIsAlphabetical(keys[a], keys[b]);
    }
  }

  /** The changes of two objects are reported by key, letter by letter. */
  lemma ObjectsInOrder(old_: Json, new_: Json)
    requires old_.Obj? && new_.Obj?
    ensures ByKey(Diff(old_, new_))
  {
    var keys := UnionKeys(old_, new_);
    KeysInOrder(|keys|, keys, old_, new_);
    assert keys[..|keys|] == keys;
    SortedKeys(old_, new_);
    hide Follows, DiffKeys;
    FollowingIsByKey(DiffKeys(|keys|, keys, old_, new_), keys);
  }

  lemma SortedKeys(old_: Json, new_: Json)
    requires old_.Obj? && new_.Obj?
    ensures SortedBy(UnionKeys(old_, new_), LexLe)
  {
  }
}
