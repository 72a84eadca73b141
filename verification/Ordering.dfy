/** Python's `sorted` and SQLite's `ORDER BY`, as far as the model needs them: a stable sort by an
    order relation, the listing of a finite set in order, and the comparison of strings by code
    point.  The uniqueness lemmas are what makes a sorted list a canonical form. */
module Ordering {

  ghost predicate TotalPreorder<T(!new)>(le: (T, T) -> bool) {
    && (forall x, y :: le(x, y) || le(y, x))
    && (forall x, y, z :: le(x, y) && le(y, z) ==> le(x, z))
  }

  ghost predicate TotalOrder<T(!new)>(le: (T, T) -> bool) {
    && TotalPreorder(le)
    && (forall x, y :: le(x, y) && le(y, x) ==> x == y)
  }

  ghost predicate TotalOrderOn<T(!new)>(s: set<T>, le: (T, T) -> bool) {
    && (forall x, y :: x in s && y in s ==> le(x, y) || le(y, x))
    && (forall x, y, z :: x in s && y in s && z in s && le(x, y) && le(y, z) ==> le(x, z))
    && (forall x, y :: x in s && y in s && le(x, y) && le(y, x) ==> x == y)
  }

  ghost predicate SortedBy<T(!new)>(s: seq<T>, le: (T, T) -> bool) {
    forall i, j :: 0 <= i < j < |s| ==> le(s[i], s[j])
  }

  ghost predicate NoDuplicates<T>(s: seq<T>) {
    forall i, j :: 0 <= i < j < |s| ==> s[i] != s[j]
  }

  // ---------------------------------------------------------------------------------------------
  // Strings

  /** `a <= b` on Python strings: lexicographic by code point. */
  predicate LexLe(a: string, b: string) {
    if a == "" then true
    else if b == "" then false
    else if a[0] == b[0] then LexLe(a[1..], b[1..])
    else a[0] < b[0]
  }

  /** One string is the beginning of the other, or has the smaller letter where they first differ. */
  ghost predicate Alphabetical(a: string, b: string) {
    a <= b || exists i :: 0 <= i < |a| && i < |b| && a[..i] == b[..i] && a[i] < b[i]
  }

  lemma {:induction false} LexIsAlphabetical(a: string, b: string)
    ensures LexLe(a, b) <==> Alphabetical(a, b)
  {
    if a != "" && b != "" {
      if a[0] == b[0] {
        LexIsAlphabetical(a[1..], b[1..]);
        AlphabeticalTails(a, b);
      } else if a[0] < b[0] {
        assert a[..0] == b[..0];
      } else {
        forall i | 0 <= i < |a| && i < |b| && a[i] < b[i] ensures a[..i] != b[..i] {
          assert a[..i][0] == a[0] && b[..i][0] == b[0];
        }
      }
    }
  }

  lemma AlphabeticalTails(a: string, b: string)
    requires a != "" && b != "" && a[0] == b[0]
    ensures Alphabetical(a, b) <==> Alphabetical(a[1..], b[1..])
  {
    var x, y := a[1..], b[1..];
    assert a == [a[0]] + x && b == [b[0]] + y;
    if i :| 0 <= i < |a| && i < |b| && a[..i] == b[..i] && a[i] < b[i] {
      assert i > 0;
      assert x[..i - 1] == a[..i][1..] && y[..i - 1] == b[..i][1..];
      assert x[i - 1] < y[i - 1];
    }
    if j :| 0 <= j < |x| && j < |y| && x[..j] == y[..j] && x[j] < y[j] {
      assert a[..j + 1] == [a[0]] + x[..j] && b[..j + 1] == [b[0]] + y[..j];
      assert a[j + 1] < b[j + 1];
    }
  }

  lemma {:induction false} LexTotal(a: string, b: string)
    ensures LexLe(a, b) || LexLe(b, a)
  {
    if a != "" && b != "" && a[0] == b[0] {
      LexTotal(a[1..], b[1..]);
    }
  }

  lemma {:induction false} LexTransitive(a: string, b: string, c: string)
    requires LexLe(a, b) && LexLe(b, c)
    ensures LexLe(a, c)
  {
    if a != "" && b != "" && c != "" && a[0] == b[0] == c[0] {
      LexTransitive(a[1..], b[1..], c[1..]);
    }
  }

  lemma {:induction false} LexAntisymmetric(a: string, b: string)
    requires LexLe(a, b) && LexLe(b, a)
    ensures a == b
  {
    if a != "" && b != "" {
      LexAntisymmetric(a[1..], b[1..]);
      assert a == [a[0]] + a[1..] && b == [b[0]] + b[1..];
    }
  }

  lemma LexIsTotalOrder()
    ensures TotalOrder(LexLe)
  {
    forall a, b ensures LexLe(a, b) || LexLe(b, a) {
      LexTotal(a, b);
    }
    forall a, b, c | LexLe(a, b) && LexLe(b, c) ensures LexLe(a, c) {
      LexTransitive(a, b, c);
    }
    forall a, b | LexLe(a, b) && LexLe(b, a) ensures a == b {
      LexAntisymmetric(a, b);
    }
  }

  // ---------------------------------------------------------------------------------------------
  // Stable sort of a list

  function Insert<T>(x: T, s: seq<T>, le: (T, T) -> bool): seq<T> {
    if s == [] then [x]
    else if le(x, s[0]) then [x] + s
    else [s[0]] + Insert(x, s[1..], le)
  }

  /** `sorted(s, key=...)`: equal elements keep their order. */
  function SortBy<T>(s: seq<T>, le: (T, T) -> bool): seq<T> {
    if s == [] then [] else Insert(s[0], SortBy(s[1..], le), le)
  }

  lemma {:induction false} InsertPermutes<T>(x: T, s: seq<T>, le: (T, T) -> bool)
    ensures multiset(Insert(x, s, le)) == multiset{x} + multiset(s)
    ensures |Insert(x, s, le)| == |s| + 1
  {
    if s != [] && !le(x, s[0]) {
      InsertPermutes(x, s[1..], le);
      assert s == [s[0]] + s[1..];
    }
  }

  lemma {:induction false} SortPermutes<T>(s: seq<T>, le: (T, T) -> bool)
    ensures multiset(SortBy(s, le)) == multiset(s)
    ensures |SortBy(s, le)| == |s|
  {
    if s != [] {
      SortPermutes(s[1..], le);
      InsertPermutes(s[0], SortBy(s[1..], le), le);
      assert s == [s[0]] + s[1..];
    }
  }

  lemma {:induction false} InsertSorts<T(!new)>(x: T, s: seq<T>, le: (T, T) -> bool)
    requires TotalPreorder(le) && SortedBy(s, le)
    ensures SortedBy(Insert(x, s, le), le)
  {
    if s != [] && !le(x, s[0]) {
      InsertSorts(x, s[1..], le);
      InsertPermutes(x, s[1..], le);
      var r := Insert(x, s[1..], le);
      forall j | 0 <= j < |r| ensures le(s[0], r[j]) {
        assert r[j] in multiset(r);
        assert r[j] == x || r[j] in s[1..];
      }
    }
  }

  lemma {:induction false} SortSorts<T(!new)>(s: seq<T>, le: (T, T) -> bool)
    requires TotalPreorder(le)
    ensures SortedBy(SortBy(s, le), le)
  {
    if s != [] {
      SortSorts(s[1..], le);
      InsertSorts(s[0], SortBy(s[1..], le), le);
    }
  }

  /** A sort moves nothing in a list that is already sorted. */
  lemma {:induction false} SortOfSorted<T(!new)>(s: seq<T>, le: (T, T) -> bool)
    requires SortedBy(s, le)
    ensures SortBy(s, le) == s
  {
    if s != [] {
      SortOfSorted(s[1..], le);
      if |s| > 1 {
        assert le(s[0], s[1]);
      }
      assert s == [s[0]] + s[1..];
    }
  }

  lemma SameElements<T>(a: seq<T>, b: seq<T>)
    requires multiset(a) == multiset(b)
    ensures forall x :: x in a <==> x in b
    ensures |a| == |b|
  {
    forall x ensures x in a <==> x in b {
      assert x in multiset(a) <==> x in multiset(b);
    }
    assert |multiset(a)| == |multiset(b)|;
  }

  lemma SameHead<T(!new)>(a: seq<T>, b: seq<T>, le: (T, T) -> bool)
    requires SortedBy(a, le) && SortedBy(b, le)
    requires a != [] && multiset(a) == multiset(b)
    requires forall x, y :: x in a && y in a && le(x, y) && le(y, x) ==> x == y
    ensures b != [] && a[0] == b[0]
  {
    SameElements(a, b);
    assert b[0] in a && a[0] in b;
    var i :| 0 <= i < |a| && a[i] == b[0];
    var j :| 0 <= j < |b| && b[j] == a[0];
    if i != 0 && j != 0 {
      assert le(a[0], a[i]) && le(b[0], b[j]);
    }
  }

  lemma TailElements<T>(a: seq<T>)
    requires a != []
    ensures multiset(a[1..]) == multiset(a) - multiset{a[0]}
    ensures forall x :: x in a[1..] ==> x in a
  {
    assert a == [a[0]] + a[1..];
  }

  /** Two sorted lists with the same elements are the same list. */
  lemma {:induction false} SortedUnique<T(!new)>(a: seq<T>, b: seq<T>, le: (T, T) -> bool)
    requires SortedBy(a, le) && SortedBy(b, le)
    requires multiset(a) == multiset(b)
    requires forall x, y :: x in a && y in a && le(x, y) && le(y, x) ==> x == y
    ensures a == b
  {
    if a == [] {
      SameElements(a, b);
    } else {
      SameHead(a, b, le);
      TailElements(a);
      TailElements(b);
      SortedUnique(a[1..], b[1..], le);
      assert a == [a[0]] + a[1..] && b == [b[0]] + b[1..];
    }
  }

  /** Sorting is a canonical form: two lists sort to the same list exactly when one is a
      permutation of the other. */
  lemma SortCanonical<T(!new)>(a: seq<T>, b: seq<T>, le: (T, T) -> bool)
    requires TotalOrder(le)
    ensures SortBy(a, le) == SortBy(b, le) <==> multiset(a) == multiset(b)
  {
    SortPermutes(a, le);
    SortPermutes(b, le);
    SortSorts(a, le);
    SortSorts(b, le);
    if multiset(a) == multiset(b) {
      SortedUnique(SortBy(a, le), SortBy(b, le), le);
    }
  }

  /** `sorted` on a list of strings. */
  function SortStrings(s: seq<string>): seq<string> {
    SortBy(s, LexLe)
  }

  lemma SortStringsCanonical(a: seq<string>, b: seq<string>)
    ensures SortStrings(a) == SortStrings(b) <==> multiset(a) == multiset(b)
  {
    LexIsTotalOrder();
    SortCanonical(a, b, LexLe);
  }

  lemma SortStringsTwice(a: seq<string>)
    ensures SortStrings(SortStrings(a)) == SortStrings(a)
  {
    LexIsTotalOrder();
    SortSorts(a, LexLe);
    SortOfSorted(SortBy(a, LexLe), LexLe);
  }

  /** `len(ids) == len(set(ids))` holds exactly of lists without repetition. */
  lemma {:induction false} DistinctCount<T>(ids: seq<T>)
    ensures |ids| == |set t | t in ids| <==> NoDuplicates(ids)
    ensures |set t | t in ids| <= |ids|
  {
    if ids != [] {
      var n := |ids| - 1;
      var front := ids[..n];
      DistinctCount(front);
      var s, f := set t | t in ids, set t | t in front;
      assert s == f + {ids[n]} by {
        assert forall t :: t in ids <==> t in front || t == ids[n];
      }
      if ids[n] in f {
        assert s == f;
        var i :| 0 <= i < n && front[i] == ids[n];
        assert ids[i] == ids[n];
      } else {
        assert |s| == |f| + 1;
        if NoDuplicates(front) {
          assert forall i :: 0 <= i < n ==> front[i] == ids[i] && front[i] in f;
        } else {
          var i, j :| 0 <= i < j < n && front[i] == front[j];
          assert ids[i] == ids[j];
        }
      }
    }
  }

  // ---------------------------------------------------------------------------------------------
  // Listing a finite set in order

  lemma {:induction false} LeastExists<T(!new)>(s: set<T>, le: (T, T) -> bool) returns (m: T)
    requires s != {} && TotalOrderOn(s, le)
    ensures m in s && forall y :: y in s ==> le(m, y)
  {
    m :| m in s;
    var rest := s - {m};
    if rest != {} {
      var n := LeastExists(rest, le);
      if !le(m, n) {
        m := n;
      }
    }
  }

  lemma ConsSorted<T(!new)>(m: T, rest: seq<T>, le: (T, T) -> bool)
    requires SortedBy(rest, le) && NoDuplicates(rest)
    requires forall x :: x in rest ==> le(m, x) && x != m
    ensures SortedBy([m] + rest, le) && NoDuplicates([m] + rest)
  {
  }

  function SortedSeq<T(!new, ==)>(s: set<T>, le: (T, T) -> bool): (r: seq<T>)
    requires TotalOrderOn(s, le)
    ensures |r| == |s|
    ensures forall x :: x in r <==> x in s
    ensures SortedBy(r, le) && NoDuplicates(r)
  {
    if s == {} then []
    else
      assert exists m :: m in s && forall y :: y in s ==> le(m, y) by {
        var m := LeastExists(s, le);
      }
      var m :| m in s && forall y :: y in s ==> le(m, y);
      var rest := SortedSeq(s - {m}, le);
      ConsSorted(m, rest, le);
      [m] + rest
  }

  /** A sorted list without duplicates is the listing of its elements. */
  lemma {:induction false} SortedSeqUnique<T(!new)>(a: seq<T>, b: seq<T>, le: (T, T) -> bool)
    requires SortedBy(a, le) && NoDuplicates(a) && SortedBy(b, le) && NoDuplicates(b)
    requires forall x :: x in a <==> x in b
    requires forall x, y :: x in a && y in a && le(x, y) && le(y, x) ==> x == y
    ensures a == b
  {
    HasMember(b);
    if a != [] {
      assert a[0] in a && a[0] in b;
      var i :| 0 <= i < |b| && b[i] == a[0];
      assert b[0] in b && b[0] in a;
      var j :| 0 <= j < |a| && a[j] == b[0];
      assert a[0] == b[0];
      assert a == [a[0]] + a[1..] && b == [b[0]] + b[1..];
      TailMembers(a);
      TailMembers(b);
      SortedSeqUnique(a[1..], b[1..], le);
    }
  }

  lemma HasMember<T>(a: seq<T>)
    ensures a != [] ==> exists x :: x in a
  {
    if a != [] {
      assert a[0] in a;
    }
  }

  lemma TailMembers<T>(a: seq<T>)
    requires a != [] && NoDuplicates(a)
    ensures forall x :: x in a[1..] <==> x in a && x != a[0]
  {
    forall x ensures x in a[1..] <==> x in a && x != a[0] {
      if x in a[1..] {
        var i :| 0 <= i < |a[1..]| && a[1..][i] == x;
        assert a[i + 1] == x;
      }
    }
  }

  /** `[x for x in listed if keep(x)]`, for the first `n` of a listing. */
  ghost predicate KeptFrom<T(!new)>(listed: seq<T>, n: nat, keep: T -> bool, le: (T, T) -> bool, kept: seq<T>)
    requires n <= |listed|
  {
    && SortedBy(kept, le) && NoDuplicates(kept)
    && forall x :: x in kept <==> keep(x) && exists k :: 0 <= k < n && listed[k] == x
  }

  lemma KeptNext<T(!new)>(listed: seq<T>, n: nat, keep: T -> bool, le: (T, T) -> bool, kept: seq<T>)
    requires n < |listed| && SortedBy(listed, le) && NoDuplicates(listed)
    requires KeptFrom(listed, n, keep, le, kept)
    ensures KeptFrom(listed, n + 1, keep, le, if keep(listed[n]) then kept + [listed[n]] else kept)
  {
    forall i | 0 <= i < |kept| ensures le(kept[i], listed[n]) && kept[i] != listed[n] {
      assert kept[i] in kept;
      var k :| 0 <= k < n && listed[k] == kept[i];
    }
  }

  lemma KeptAll<T(!new)>(listed: seq<T>, keep: T -> bool, le: (T, T) -> bool, kept: seq<T>, s: set<T>)
    requires KeptFrom(listed, |listed|, keep, le, kept) && TotalOrderOn(s, le)
    requires forall x :: x in s <==> keep(x) && x in listed
    ensures kept == SortedSeq(s, le)
  {
    var all := SortedSeq(s, le);
    forall x ensures x in kept <==> x in all {
      assert x in listed <==> exists k :: 0 <= k < |listed| && listed[k] == x;
    }
    SortedSeqUnique(kept, all, le);
  }

  lemma LexOrders(s: set<string>)
    ensures TotalOrderOn(s, LexLe)
  {
    LexIsTotalOrder();
  }

  function SortedStrings(s: set<string>): (r: seq<string>)
    ensures |r| == |s|
    ensures forall x :: x in r <==> x in s
    ensures SortedBy(r, LexLe) && NoDuplicates(r)
  {
    LexOrders(s);
    SortedSeq(s, LexLe)
  }
}
