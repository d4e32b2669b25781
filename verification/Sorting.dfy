/** The standard library's stable sort, as insertion in front of the first element that does not
    come strictly before the new one. */
module Sorting {
  import opened Digraph

  function Filter<T>(keep: T -> bool, s: seq<T>): seq<T> {
    if s == [] then []
    else if keep(s[0]) then [s[0]] + Filter(keep, s[1..])
    else Filter(keep, s[1..])
  }

  lemma {:induction false} FilterMembers<T>(keep: T -> bool, s: seq<T>)
    ensures forall x :: x in Filter(keep, s) <==> x in s && keep(x)
  {
    if s != [] {
      FilterMembers(keep, s[1..]);
    }
  }

  function InsertBy<T>(before: (T, T) -> bool, x: T, s: seq<T>): seq<T> {
    if s == [] || !before(s[0], x) then [x] + s else [s[0]] + InsertBy(before, x, s[1..])
  }

  function SortBy<T>(before: (T, T) -> bool, s: seq<T>): seq<T> {
    if s == [] then [] else InsertBy(before, s[0], SortBy(before, s[1..]))
  }

  /** `before` is a strict order in which incomparability is an equivalence. */
  ghost predicate StrictWeakOrder<T(!new)>(before: (T, T) -> bool) {
    && (forall x, y :: before(x, y) ==> !before(y, x))
    && (forall x, y, z :: !before(x, y) && !before(y, z) ==> !before(x, z))
  }

  ghost predicate SortedBy<T>(before: (T, T) -> bool, s: seq<T>) {
    forall i, j :: 0 <= i < j < |s| ==> !before(s[j], s[i])
  }

  lemma {:induction false} InsertPermutes<T>(before: (T, T) -> bool, x: T, s: seq<T>)
    ensures multiset(InsertBy(before, x, s)) == multiset(s) + multiset{x}
  {
    if s != [] && before(s[0], x) {
      InsertPermutes(before, x, s[1..]);
      assert s == [s[0]] + s[1..];
    }
  }

  lemma {:induction false} SortPermutes<T>(before: (T, T) -> bool, s: seq<T>)
    ensures multiset(SortBy(before, s)) == multiset(s)
  {
    if s != [] {
      SortPermutes(before, s[1..]);
      InsertPermutes(before, s[0], SortBy(before, s[1..]));
      assert s == [s[0]] + s[1..];
    }
  }

  lemma {:induction false} InsertSorts<T(!new)>(before: (T, T) -> bool, x: T, s: seq<T>)
    requires StrictWeakOrder(before) && SortedBy(before, s)
    ensures SortedBy(before, InsertBy(before, x, s))
  {
    if s == [] {
    } else if !before(s[0], x) {
      var r := [x] + s;
      forall j | 0 < j < |r| ensures !before(r[j], r[0]) {
        if j > 1 {
          assert !before(s[j - 1], s[0]);
        }
      }
    } else {
      InsertSorts(before, x, s[1..]);
      InsertPermutes(before, x, s[1..]);
      var tail := InsertBy(before, x, s[1..]);
      forall j | 0 <= j < |tail| ensures !before(tail[j], s[0]) {
        assert tail[j] in multiset(tail);
        if tail[j] != x {
          assert tail[j] in s[1..];
        }
      }
    }
  }

  lemma {:induction false} SortSorts<T(!new)>(before: (T, T) -> bool, s: seq<T>)
    requires StrictWeakOrder(before)
    ensures SortedBy(before, SortBy(before, s))
  {
    if s != [] {
      SortSorts(before, s[1..]);
      InsertSorts(before, s[0], SortBy(before, s[1..]));
    }
  }

  /** A sorted sequence is left as it is, ties included. */
  lemma {:induction false} SortOfSorted<T>(before: (T, T) -> bool, s: seq<T>)
    requires SortedBy(before, s)
    ensures SortBy(before, s) == s
  {
    if s != [] {
      SortOfSorted(before, s[1..]);
      if |s| > 1 {
        assert !before(s[1], s[0]);
      }
      assert s == [s[0]] + s[1..];
    }
  }

  lemma {:induction false} SetMultisetDistinct<T>(s: seq<T>, elements: set<T>)
    requires multiset(s) == multiset(elements)
    ensures Distinct(s) && forall x :: x in s <==> x in elements
  {
    forall i, j | 0 <= i < j < |s| ensures s[i] != s[j] {
      assert s == s[..j] + [s[j]] + s[j + 1..];
      assert s[..j][i] == s[i];
      assert multiset(s)[s[j]] == multiset(s[..j])[s[j]] + 1 + multiset(s[j + 1..])[s[j]];
      assert multiset(elements)[s[j]] <= 1;
    }
    forall x ensures x in s <==> x in elements {
      assert x in s <==> x in multiset(s);
    }
  }
}
