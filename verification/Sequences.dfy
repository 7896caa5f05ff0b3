/** Sequences up to reordering: what a fold over a stream of results may rely on when the schedule picks
    the order of the stream. */
module Sequences {

  function Min(a: nat, b: nat): nat {
    if a < b then a else b
  }

  ghost predicate Distinct<T>(s: seq<T>) {
    forall i, j :: 0 <= i < j < |s| ==> s[i] != s[j]
  }

  ghost predicate Increasing(ks: seq<nat>) {
    forall i, j :: 0 <= i < j < |ks| ==> ks[i] < ks[j]
  }

  function Map<T, S>(f: T -> S, s: seq<T>): (r: seq<S>)
    ensures |r| == |s| && forall i :: 0 <= i < |s| ==> r[i] == f(s[i])
  {
    seq(|s|, i requires 0 <= i < |s| => f(s[i]))
  }

  function FlatMap<T, S>(f: T -> seq<S>, s: seq<T>): seq<S> {
    if s == [] then [] else f(s[0]) + FlatMap(f, s[1..])
  }

  /** For FlatMap: the element itself, if it is to be kept. */
  function KeepIf<T>(keep: T -> bool): T -> seq<T> {
    x => if keep(x) then [x] else []
  }

  lemma {:induction false} FlatMapConcat<T, S>(f: T -> seq<S>, a: seq<T>, b: seq<T>)
    ensures FlatMap(f, a + b) == FlatMap(f, a) + FlatMap(f, b)
  {
    if a == [] {
      assert a + b == b;
    } else {
      FlatMapConcat(f, a[1..], b);
      assert (a + b)[1..] == a[1..] + b && (a + b)[0] == a[0];
    }
  }

  lemma FlatMapSplit<T, S>(f: T -> seq<S>, s: seq<T>, k: nat)
    requires k < |s|
    ensures FlatMap(f, s) == FlatMap(f, s[..k]) + f(s[k]) + FlatMap(f, s[k + 1..])
  {
    assert s == s[..k] + s[k..] && s[k..][1..] == s[k + 1..];
    FlatMapConcat(f, s[..k], s[k..]);
  }

  lemma {:induction false} FlatMapSame<T, S>(f: T -> seq<S>, g: T -> seq<S>, s: seq<T>)
    requires forall x :: x in s ==> f(x) == g(x)
    ensures FlatMap(f, s) == FlatMap(g, s)
  {
    if s != [] {
      FlatMapSame(f, g, s[1..]);
    }
  }

  lemma SameMembers<T>(s: seq<T>, r: seq<T>)
    requires multiset(s) == multiset(r)
    ensures |s| == |r| && forall x :: x in s <==> x in r
  {
    assert |s| == |multiset(s)| && |r| == |multiset(r)|;
    assert forall x :: x in s <==> x in multiset(s);
    assert forall x :: x in r <==> x in multiset(r);
  }

  lemma {:induction false} FlatMapSnoc<T, S>(f: T -> seq<S>, s: seq<T>, last: T)
    ensures FlatMap(f, s + [last]) == FlatMap(f, s) + f(last)
  {
    if s == [] {
      assert s + [last] == [last];
    } else {
      FlatMapSnoc(f, s[1..], last);
      assert (s + [last])[1..] == s[1..] + [last];
    }
  }

  function Without<T>(b: seq<T>, k: nat): seq<T>
    requires k < |b|
  {
    b[..k] + b[k + 1..]
  }

  lemma WithoutLess<T>(b: seq<T>, k: nat)
    requires k < |b|
    ensures multiset(b) == multiset{b[k]} + multiset(Without(b, k))
  {
    assert b == b[..k] + [b[k]] + b[k + 1..];
  }

  lemma Cancel<T>(x: T, a: multiset<T>, b: multiset<T>)
    requires multiset{x} + a == multiset{x} + b
    ensures a == b
  {
    assert a == (multiset{x} + a) - multiset{x};
  }

  lemma {:induction false} FlatMapWithout<T, S>(f: T -> seq<S>, b: seq<T>, k: nat)
    requires k < |b|
    ensures multiset(FlatMap(f, b)) == multiset(f(b[k])) + multiset(FlatMap(f, Without(b, k)))
  {
    var rest := Without(b, k);
    if k == 0 {
      assert rest == b[1..];
    } else {
      FlatMapWithout(f, b[1..], k - 1);
      assert rest[0] == b[0] && rest[1..] == Without(b[1..], k - 1);
      assert multiset(FlatMap(f, b)) == multiset(f(b[0])) + multiset(FlatMap(f, b[1..]));
      assert multiset(FlatMap(f, rest)) == multiset(f(b[0])) + multiset(FlatMap(f, rest[1..]));
    }
  }

  lemma {:induction false} FlatMapPermuted<T, S>(f: T -> seq<S>, a: seq<T>, b: seq<T>)
    requires multiset(a) == multiset(b)
    ensures multiset(FlatMap(f, a)) == multiset(FlatMap(f, b))
    decreases |a|
  {
    SameMembers(a, b);
    if a != [] {
      assert a[0] in b;
      var k :| 0 <= k < |b| && b[k] == a[0];
      var a', b' := Without(a, 0), Without(b, k);
      WithoutLess(a, 0);
      WithoutLess(b, k);
      Cancel(a[0], multiset(a'), multiset(b'));
      FlatMapPermuted(f, a', b');
      FlatMapWithout(f, a, 0);
      FlatMapWithout(f, b, k);
    }
  }

  lemma {:induction false} MapIsFlatMap<T, S>(f: T -> S, s: seq<T>)
    ensures Map(f, s) == FlatMap(x => [f(x)], s)
  {
    if s != [] {
      MapIsFlatMap(f, s[1..]);
      assert Map(f, s) == [f(s[0])] + Map(f, s[1..]);
    }
  }

  lemma MapPermuted<T, S>(f: T -> S, a: seq<T>, b: seq<T>)
    requires multiset(a) == multiset(b)
    ensures multiset(Map(f, a)) == multiset(Map(f, b))
  {
    MapIsFlatMap(f, a);
    MapIsFlatMap(f, b);
    FlatMapPermuted(x => [f(x)], a, b);
  }

  lemma {:induction false} InFlatMap<T, S>(f: T -> seq<S>, s: seq<T>, y: S)
    ensures y in FlatMap(f, s) <==> exists x :: x in s && y in f(x)
  {
    if s != [] {
      InFlatMap(f, s[1..], y);
      assert s == [s[0]] + s[1..];
      assert (exists x :: x in s && y in f(x)) <==> y in f(s[0]) || exists x :: x in s[1..] && y in f(x);
    }
  }

  // ----- What a flat map lists -----

  ghost function Positions<T>(s: seq<T>, hit: T -> bool): set<int> {
    set i | 0 <= i < |s| && hit(s[i])
  }

  lemma PositionsSnoc<T>(s: seq<T>, last: T, hit: T -> bool)
    ensures Positions(s + [last], hit) == Positions(s, hit) + if hit(last) then {|s|} else {}
  {
    assert (s + [last])[|s|] == last && forall i :: 0 <= i < |s| ==> (s + [last])[i] == s[i];
  }

  lemma CountOfOne<S>(before: seq<S>, out: seq<S>, y: S)
    requires |out| <= 1
    ensures multiset(before + out)[y] == multiset(before)[y] + if out == [y] then 1 else 0
  {
    if out != [] {
      assert out == [out[0]];
    }
  }

  /** A flat map that yields at most one element each lists an element as often as there are positions that yield it. */
  lemma {:induction false} CountPositions<T(!new), S>(f: T -> seq<S>, s: seq<T>, y: S, hit: T -> bool)
    requires forall x :: x in s ==> |f(x)| <= 1
    requires forall x :: hit(x) <==> f(x) == [y]
    ensures multiset(FlatMap(f, s))[y] == |Positions(s, hit)|
  {
    if s == [] {
      assert Positions(s, hit) == {};
    } else {
      var init, last := s[..|s| - 1], s[|s| - 1];
      CountPositions(f, init, y, hit);
      FlatMapSnoc(f, init, last);
      PositionsSnoc(init, last, hit);
      CountOfOne(FlatMap(f, init), f(last), y);
      assert init + [last] == s && |init| !in Positions(init, hit);
    }
  }

  ghost function PairPositions<T, U>(s: seq<T>, g: T -> seq<U>, hit: U -> bool): set<(int, int)> {
    set i, k | 0 <= i < |s| && 0 <= k < |g(s[i])| && hit(g(s[i])[k]) :: (i, k)
  }

  ghost function PairsAt<T>(i: int, ks: set<T>): set<(int, T)> {
    set k | k in ks :: (i, k)
  }

  lemma {:induction false} PairsAtSize<T>(i: int, ks: set<T>)
    ensures |PairsAt(i, ks)| == |ks|
    decreases |ks|
  {
    if ks == {} {
      assert PairsAt(i, ks) == {};
    } else {
      var k :| k in ks;
      PairsAtSize(i, ks - {k});
      assert PairsAt(i, ks) == PairsAt(i, ks - {k}) + {(i, k)};
    }
  }

  lemma PairPositionsSnoc<T, U>(s: seq<T>, last: T, g: T -> seq<U>, hit: U -> bool)
    ensures PairPositions(s + [last], g, hit) == PairPositions(s, g, hit) + PairsAt(|s|, Positions(g(last), hit))
    ensures PairPositions(s, g, hit) !! PairsAt(|s|, Positions(g(last), hit))
  {
    var t := s + [last];
    assert t[|s|] == last && forall i :: 0 <= i < |s| ==> t[i] == s[i];
  }

  lemma NestedSnoc<T, U, S>(g: T -> seq<U>, f: U -> seq<S>, s: seq<T>, last: T)
    ensures multiset(FlatMap(f, FlatMap(g, s + [last])))
         == multiset(FlatMap(f, FlatMap(g, s))) + multiset(FlatMap(f, g(last)))
  {
    FlatMapSnoc(g, s, last);
    FlatMapConcat(f, FlatMap(g, s), g(last));
  }

  /** The same for lists within a list. */
  lemma {:induction false} CountPairs<T, U(!new), S>(g: T -> seq<U>, f: U -> seq<S>, s: seq<T>, y: S, hit: U -> bool)
    requires forall x, u :: x in s && u in g(x) ==> |f(u)| <= 1
    requires forall u :: hit(u) <==> f(u) == [y]
    ensures multiset(FlatMap(f, FlatMap(g, s)))[y] == |PairPositions(s, g, hit)|
  {
    if s == [] {
      assert PairPositions(s, g, hit) == {};
    } else {
      var init, last := s[..|s| - 1], s[|s| - 1];
      assert init + [last] == s;
      CountPairs(g, f, init, y, hit);
      CountPositions(f, g(last), y, hit);
      PairPositionsSnoc(init, last, g, hit);
      PairsAtSize(|init|, Positions(g(last), hit));
      NestedSnoc(g, f, init, last);
    }
  }

  /** The positions ks, in order, are those of s that yield something, and `out` is what they yield. */
  ghost predicate Picks<T, S>(f: T -> seq<S>, s: seq<T>, ks: seq<nat>, out: seq<S>) {
    && Increasing(ks)
    && (forall k: nat :: k in ks <==> k < |s| && f(s[k]) != [])
    && |ks| == |out| && forall i :: 0 <= i < |ks| ==> ks[i] < |s| && f(s[ks[i]]) == [out[i]]
  }

  lemma PicksSnoc<T, S>(f: T -> seq<S>, s: seq<T>, ks: seq<nat>, out: seq<S>, last: T)
    requires Picks(f, s, ks, out) && |f(last)| <= 1
    ensures f(last) == [] ==> Picks(f, s + [last], ks, out)
    ensures f(last) != [] ==> Picks(f, s + [last], ks + [|s|], out + f(last))
  {
    assert (s + [last])[|s|] == last && forall i :: 0 <= i < |s| ==> (s + [last])[i] == s[i];
    forall i | 0 <= i < |ks| ensures ks[i] < |s| {
      assert ks[i] in ks;
    }
  }

  /** It lists them in the order of those positions. */
  lemma {:induction false} PickedInOrder<T, S>(f: T -> seq<S>, s: seq<T>) returns (ks: seq<nat>)
    requires forall x :: x in s ==> |f(x)| <= 1
    ensures Picks(f, s, ks, FlatMap(f, s))
  {
    if s == [] {
      ks := [];
    } else {
      var init, last := s[..|s| - 1], s[|s| - 1];
      var before := PickedInOrder(f, init);
      FlatMapSnoc(f, init, last);
      PicksSnoc(f, init, before, FlatMap(f, init), last);
      assert init + [last] == s;
      ks := if f(last) == [] then before else before + [|init|];
    }
  }

  // ----- Distinct elements -----

  /** The elements in some order, each once: how Go may range over the keys of a map. */
  ghost predicate IsListing<T(!new)>(keys: set<T>, order: seq<T>) {
    (forall k :: k in order <==> k in keys) && Distinct(order)
  }

  lemma {:induction false} SomeListing<T(!new)>(keys: set<T>) returns (order: seq<T>)
    ensures IsListing(keys, order)
    decreases |keys|
  {
    if keys == {} {
      order := [];
    } else {
      var k :| k in keys;
      var rest := SomeListing(keys - {k});
      order := rest + [k];
    }
  }

  lemma {:induction false} CountOnce<T>(s: seq<T>, x: T)
    requires Distinct(s)
    ensures multiset(s)[x] == if x in s then 1 else 0
  {
    if s != [] {
      assert s == [s[0]] + s[1..];
      CountOnce(s[1..], x);
    }
  }

  lemma ListingsArePermutations<T(!new)>(keys: set<T>, a: seq<T>, b: seq<T>)
    requires IsListing(keys, a) && IsListing(keys, b)
    ensures multiset(a) == multiset(b)
  {
    forall k ensures multiset(a)[k] == multiset(b)[k] {
      CountOnce(a, k);
      CountOnce(b, k);
      assert k in a <==> k in b;
    }
  }

  ghost function Hits<T(!new)>(keys: set<T>, hit: T -> bool): set<T> {
    set k | k in keys && hit(k)
  }

  lemma HitsWithout<T(!new)>(keys: set<T>, last: T, hit: T -> bool)
    requires last in keys
    ensures |Hits(keys, hit)| == |Hits(keys - {last}, hit)| + if hit(last) then 1 else 0
  {
    assert Hits(keys, hit) == Hits(keys - {last}, hit) + if hit(last) then {last} else {};
  }

  lemma ListingWithout<T(!new)>(keys: set<T>, init: seq<T>, last: T)
    requires IsListing(keys, init + [last])
    ensures last in keys && IsListing(keys - {last}, init)
  {
    var order := init + [last];
    assert order[|init|] == last && forall i :: 0 <= i < |init| ==> order[i] == init[i];
    assert last in order;
    forall k ensures k in init <==> k in keys - {last} {
      assert k in order <==> k in init || k == last;
    }
  }

  /** Each key is at one position of a listing. */
  lemma {:induction false} PositionsOfListing<T(!new)>(keys: set<T>, order: seq<T>, hit: T -> bool)
    requires IsListing(keys, order)
    ensures |Positions(order, hit)| == |Hits(keys, hit)|
    decreases |order|
  {
    if order == [] {
      assert Positions(order, hit) == {} && Hits(keys, hit) == {};
    } else {
      var init, last := order[..|order| - 1], order[|order| - 1];
      assert init + [last] == order;
      ListingWithout(keys, init, last);
      PositionsOfListing(keys - {last}, init, hit);
      PositionsSnoc(init, last, hit);
      HitsWithout(keys, last, hit);
      assert |init| !in Positions(init, hit);
    }
  }

  lemma DistinctPermuted<T>(s: seq<T>, r: seq<T>)
    requires Distinct(s) && multiset(s) == multiset(r)
    ensures Distinct(r)
  {
    forall i, j | 0 <= i < j < |r| ensures r[i] != r[j] {
      CountOnce(s, r[i]);
      assert r == r[..j] + [r[j]] + r[j + 1..] && r[..j][i] == r[i];
      assert r[i] in multiset(r[..j]);
    }
  }

  // ----- Adding what is missing -----

  /** The wanted elements that are not there yet go to the end, each once. */
  function AddMissing<T(==)>(names: seq<T>, wanted: seq<T>): (all: seq<T>)
    ensures names <= all
    decreases |wanted|
  {
    if wanted == [] then names
    else AddMissing(if wanted[0] in names then names else names + [wanted[0]], wanted[1..])
  }

  function FirstIndex<T(==)>(s: seq<T>, x: T): (i: nat)
    requires x in s
    ensures i < |s| && s[i] == x && forall j :: 0 <= j < i ==> s[j] != x
  {
    if s[0] == x then 0 else FirstIndex(s[1..], x) + 1
  }

  lemma {:induction false} AddMissingHas<T>(names: seq<T>, wanted: seq<T>, x: T)
    ensures x in AddMissing(names, wanted) <==> x in names || x in wanted
    decreases |wanted|
  {
    if wanted != [] {
      var next := if wanted[0] in names then names else names + [wanted[0]];
      AddMissingHas(next, wanted[1..], x);
      assert wanted == [wanted[0]] + wanted[1..];
    }
  }

  lemma {:induction false} FirstIndexLeast<T>(s: seq<T>, x: T, j: nat)
    requires j < |s| && s[j] == x
    ensures FirstIndex(s, x) <= j
  {
    if s[0] != x {
      FirstIndexLeast(s[1..], x, j - 1);
    }
  }

  lemma PickedAt<T, S>(f: T -> seq<S>, s: seq<T>, ks: seq<nat>, out: seq<S>, x: S, i: nat)
    requires Picks(f, s, ks, out) && i < |s| && f(s[i]) == [x]
    ensures x in out && ks[FirstIndex(out, x)] <= i
  {
    assert i in ks;
    var j :| 0 <= j < |ks| && ks[j] == i;
    assert [out[j]] == [x];
    FirstIndexLeast(out, x, j);
  }

  /** The first thing like x that is picked comes from the first position that yields it. */
  lemma FirstPicked<T, S>(f: T -> seq<S>, s: seq<T>, ks: seq<nat>, out: seq<S>, x: S)
    requires Picks(f, s, ks, out) && x in out
    ensures var k := ks[FirstIndex(out, x)];
            k < |s| && f(s[k]) == [x] && forall i :: 0 <= i < k ==> f(s[i]) != [x]
  {
    forall i: nat | i < |s| && f(s[i]) == [x] ensures ks[FirstIndex(out, x)] <= i {
      PickedAt(f, s, ks, out, x, i);
    }
  }

  /** These are wanted, and in the order in which they are first wanted. */
  ghost predicate AsFirstWanted<T>(wanted: seq<T>, added: seq<T>) {
    && (forall i :: 0 <= i < |added| ==> added[i] in wanted)
    && forall i, j :: 0 <= i < j < |added| ==> FirstIndex(wanted, added[i]) < FirstIndex(wanted, added[j])
  }

  ghost predicate AreNew<T>(names: seq<T>, added: seq<T>) {
    forall j :: 0 <= j < |added| ==> added[j] !in names && added[j] !in added[..j]
  }

  lemma AsFirstWantedCons<T>(w: T, rest: seq<T>, later: seq<T>)
    requires AsFirstWanted(rest, later) && w !in later
    ensures AsFirstWanted([w] + rest, later) && AsFirstWanted([w] + rest, [w] + later)
  {
    var wanted := [w] + rest;
    assert wanted[1..] == rest;
    forall i | 0 <= i < |later|
      ensures later[i] in wanted && FirstIndex(wanted, later[i]) == FirstIndex(rest, later[i]) + 1
    {
      assert later[i] in rest;
    }
  }

  lemma AreNewCons<T>(names: seq<T>, w: T, later: seq<T>)
    requires AreNew(names + [w], later) && w !in names
    ensures AreNew(names, [w] + later) && w !in later
  {
    forall j | 0 <= j < |later| ensures later[j] != w && later[j] !in names {
      assert w in names + [w] && forall x :: x in names ==> x in names + [w];
    }
    var added := [w] + later;
    forall j | 0 <= j < |added| ensures added[j] !in names && added[j] !in added[..j] {
      if j > 0 {
        assert added[..j] == [w] + later[..j - 1];
      }
    }
  }

  /** What is added is what was wanted and missing, each once and in the order in which it is first wanted. */
  lemma {:induction false} WantedInOrder<T>(names: seq<T>, wanted: seq<T>) returns (added: seq<T>)
    ensures AddMissing(names, wanted) == names + added
    ensures AsFirstWanted(wanted, added) && AreNew(names, added)
    decreases |wanted|
  {
    if wanted == [] {
      added := [];
    } else {
      var w, rest := wanted[0], wanted[1..];
      assert [w] + rest == wanted;
      if w in names {
        added := WantedInOrder(names, rest);
        AsFirstWantedCons(w, rest, added);
      } else {
        var later := WantedInOrder(names + [w], rest);
        AreNewCons(names, w, later);
        AsFirstWantedCons(w, rest, later);
        added := [w] + later;
        assert names + [w] + later == names + added;
      }
    }
  }

  lemma {:induction false} AddMissingNothing<T>(names: seq<T>, wanted: seq<T>)
    requires forall x :: x in wanted ==> x in names
    ensures AddMissing(names, wanted) == names
  {
    if wanted != [] {
      AddMissingNothing(names, wanted[1..]);
    }
  }

  lemma {:induction false} AddMissingSnoc<T>(names: seq<T>, wanted: seq<T>, last: seq<T>)
    ensures AddMissing(names, wanted + last) == AddMissing(AddMissing(names, wanted), last)
    decreases |wanted|
  {
    if wanted == [] {
      assert wanted + last == last;
    } else {
      var next := if wanted[0] in names then names else names + [wanted[0]];
      AddMissingSnoc(next, wanted[1..], last);
      assert (wanted + last)[1..] == wanted[1..] + last;
    }
  }

  lemma {:induction false} AddMissingDistinct<T>(names: seq<T>, wanted: seq<T>)
    requires Distinct(names)
    ensures Distinct(AddMissing(names, wanted))
    decreases |wanted|
  {
    if wanted != [] {
      AddMissingDistinct(if wanted[0] in names then names else names + [wanted[0]], wanted[1..]);
    }
  }
}
