/** Go's sort.Sort and sort.Slice promise a sorted permutation and nothing about ties.  Here is when that
    is enough for the caller to see one answer only.  An order is given by `le`: x may stand before y. */
module Sorting {
  import opened Sequences

  ghost predicate TotalPreorder<T(!new)>(le: (T, T) -> bool) {
    && (forall x, y :: le(x, y) || le(y, x))
    && (forall x, y, z :: le(x, y) && le(y, z) ==> le(x, z))
  }

  ghost predicate Tied<T>(le: (T, T) -> bool, x: T, y: T) {
    le(x, y) && le(y, x)
  }

  ghost predicate Sorted<T>(le: (T, T) -> bool, s: seq<T>) {
    forall i, j :: 0 <= i < j < |s| ==> le(s[i], s[j])
  }

  ghost predicate IsSorting<T>(le: (T, T) -> bool, s: seq<T>, r: seq<T>) {
    Sorted(le, r) && multiset(r) == multiset(s)
  }

  /** A sorting routine: any function that returns some sorted permutation of its argument. */
  ghost predicate Sorts<T(!new)>(le: (T, T) -> bool, sort: seq<T> -> seq<T>) {
    forall s :: IsSorting(le, s, sort(s))
  }

  /** What a caller sees of an element does not tell ties apart. */
  ghost predicate TiesLookAlike<T, S>(le: (T, T) -> bool, show: T -> S, s: seq<T>) {
    forall x, y :: x in s && y in s && Tied(le, x, y) ==> show(x) == show(y)
  }

  function Insert<T>(le: (T, T) -> bool, x: T, s: seq<T>): seq<T> {
    if s == [] then [x]
    else if le(x, s[0]) then [x] + s
    else [s[0]] + Insert(le, x, s[1..])
  }

  function InsertionSort<T>(le: (T, T) -> bool, s: seq<T>): seq<T> {
    if s == [] then [] else Insert(le, s[0], InsertionSort(le, s[1..]))
  }

  lemma {:induction false} InsertKeepsAll<T>(le: (T, T) -> bool, x: T, s: seq<T>)
    ensures multiset(Insert(le, x, s)) == multiset{x} + multiset(s)
  {
    if s != [] && !le(x, s[0]) {
      InsertKeepsAll(le, x, s[1..]);
      assert s == [s[0]] + s[1..];
    }
  }

  lemma SortedCons<T(!new)>(le: (T, T) -> bool, x: T, s: seq<T>)
    requires Sorted(le, s) && forall y :: y in s ==> le(x, y)
    ensures Sorted(le, [x] + s)
  {
  }

  lemma {:induction false} InsertSorts<T(!new)>(le: (T, T) -> bool, x: T, s: seq<T>)
    requires TotalPreorder(le) && Sorted(le, s)
    ensures Sorted(le, Insert(le, x, s))
  {
    if s != [] {
      if le(x, s[0]) {
        forall y | y in s ensures le(x, y) {
          var j :| 0 <= j < |s| && s[j] == y;
          assert le(s[0], s[0]) && le(s[0], s[j]);
        }
        SortedCons(le, x, s);
      } else {
        var rest := Insert(le, x, s[1..]);
        InsertSorts(le, x, s[1..]);
        InsertKeepsAll(le, x, s[1..]);
        assert multiset([x] + s[1..]) == multiset(rest);
        SameMembers([x] + s[1..], rest);
        SortedCons(le, s[0], rest);
      }
    }
  }

  lemma {:induction false} InsertionSorts<T(!new)>(le: (T, T) -> bool, s: seq<T>)
    requires TotalPreorder(le)
    ensures IsSorting(le, s, InsertionSort(le, s))
  {
    if s != [] {
      InsertionSorts(le, s[1..]);
      InsertSorts(le, s[0], InsertionSort(le, s[1..]));
      InsertKeepsAll(le, s[0], InsertionSort(le, s[1..]));
      assert s == [s[0]] + s[1..];
    }
  }

  function Swap<T>(s: seq<T>, i: nat, j: nat): (r: seq<T>)
    requires i < |s| && j < |s|
    ensures multiset(r) == multiset(s)
  {
    s[i := s[j]][j := s[i]]
  }

  lemma SwapTied<T(!new)>(le: (T, T) -> bool, s: seq<T>, i: nat, j: nat)
    requires TotalPreorder(le) && Sorted(le, s)
    requires i < |s| && j < |s| && Tied(le, s[i], s[j])
    ensures Sorted(le, Swap(s, i, j))
  {
    var r := Swap(s, i, j);
    forall a, b | 0 <= a < b < |r| ensures le(r[a], r[b]) {
      var other := (k: int) => if k == i then j else if k == j then i else k;
      assert r[a] == s[other(a)] && r[b] == s[other(b)];
      // The element of s at position a is tied with r[a], and likewise for b.
      assert le(r[a], s[a]) && le(s[b], r[b]) by {
        assert le(s[a], s[a]) && le(s[b], s[b]);
      }
      assert le(s[a], s[b]);
      assert le(r[a], s[b]);
    }
  }

  lemma MapSwap<T, S>(show: T -> S, s: seq<T>, i: nat, j: nat)
    requires i < |s| && j < |s| && show(s[i]) == show(s[j])
    ensures Map(show, Swap(s, i, j)) == Map(show, s)
  {
  }

  lemma DropFirst<T>(a: seq<T>, c: seq<T>)
    requires a != [] && c != [] && a[0] == c[0] && multiset(a) == multiset(c)
    ensures multiset(a[1..]) == multiset(c[1..])
  {
    assert a == [a[0]] + a[1..] && c == [a[0]] + c[1..];
    assert multiset(a[1..]) == multiset(a) - multiset{a[0]};
    assert multiset(c[1..]) == multiset(c) - multiset{a[0]};
  }

  /** Bring a copy of a's first element to the front of b. */
  lemma FrontMatches<T(!new), S>(le: (T, T) -> bool, show: T -> S, a: seq<T>, b: seq<T>) returns (c: seq<T>)
    requires TotalPreorder(le) && TiesLookAlike(le, show, a) && a != []
    requires Sorted(le, a) && IsSorting(le, a, b)
    ensures IsSorting(le, a, c) && |c| == |a| && c[0] == a[0] && Map(show, c) == Map(show, b)
  {
    SameMembers(a, b);
    assert a[0] in b && b[0] in a;
    var k :| 0 <= k < |b| && b[k] == a[0];
    var m :| 0 <= m < |a| && a[m] == b[0];
    assert le(a[0], a[0]) && le(b[0], b[0]);
    assert le(b[0], b[k]) && le(a[0], a[m]);
    SwapTied(le, b, 0, k);
    MapSwap(show, b, 0, k);
    c := Swap(b, 0, k);
  }

  /** If ties look alike, every sorting looks the same. */
  lemma {:induction false} SortingsLookAlike<T(!new), S>(le: (T, T) -> bool, show: T -> S, a: seq<T>, b: seq<T>)
    requires TotalPreorder(le) && TiesLookAlike(le, show, a)
    requires Sorted(le, a) && IsSorting(le, a, b)
    ensures Map(show, a) == Map(show, b)
    decreases |a|
  {
    if a == [] {
      SameMembers(a, b);
    } else {
      var c := FrontMatches(le, show, a, b);
      DropFirst(a, c);
      SortingsLookAlike(le, show, a[1..], c[1..]);
      assert Map(show, a) == [show(a[0])] + Map(show, a[1..]);
      assert Map(show, c) == [show(a[0])] + Map(show, c[1..]);
    }
  }

  lemma TiesTellApart<T(!new), S>(le: (T, T) -> bool, show: T -> S, s: seq<T>, x: T, y: T)
      returns (a: seq<T>, b: seq<T>)
    requires TotalPreorder(le) && x in s && y in s && Tied(le, x, y) && show(x) != show(y)
    ensures IsSorting(le, s, a) && IsSorting(le, s, b) && Map(show, a) != Map(show, b)
  {
    a := InsertionSort(le, s);
    InsertionSorts(le, s);
    SameMembers(s, a);
    assert x in a && y in a;
    var i :| 0 <= i < |a| && a[i] == x;
    var j :| 0 <= j < |a| && a[j] == y;
    SwapTied(le, a, i, j);
    b := Swap(a, i, j);
    assert Map(show, a)[i] == show(x) && Map(show, b)[i] == show(y);
  }

  /** The caller sees one answer from every sorting exactly when ties look alike. */
  lemma OneAnswerIffTiesLookAlike<T(!new), S>(le: (T, T) -> bool, show: T -> S, s: seq<T>)
    requires TotalPreorder(le)
    ensures TiesLookAlike(le, show, s) <==>
            forall a, b :: IsSorting(le, s, a) && IsSorting(le, s, b) ==> Map(show, a) == Map(show, b)
  {
    if TiesLookAlike(le, show, s) {
      forall a, b | IsSorting(le, s, a) && IsSorting(le, s, b) ensures Map(show, a) == Map(show, b) {
        SameMembers(s, a);
        SortingsLookAlike(le, show, a, b);
      }
    } else {
      var x, y :| x in s && y in s && Tied(le, x, y) && show(x) != show(y);
      var a, b := TiesTellApart(le, show, s, x, y);
    }
  }
}
