/** The catalogue read page by page (GetPaginatedChartList), and the dashboard's charts reducer gluing the pages
    together again. */
module Paging {
  import opened Sequences
  import opened Sorting
  import opened Wrappers

  datatype Chart = Chart(id: string, name: string, namespace: string)

  // ----- The server -----

  type PageNumber = n: int | n > 0 witness 1

  /** What is appended to the query. */
  datatype Pagination = Everything | Limit(limit: nat, offset: nat)

  // LIMIT and OFFSET on the rows in the order the server put them.
  function Select<T>(ordered: seq<T>, clause: Pagination): seq<T> {
    match clause
    case Everything => ordered
    case Limit(limit, offset) =>
      var from := Min(offset, |ordered|);
      ordered[from..Min(from + limit, |ordered|)]
  }

  function Boundary(page: nat, size: nat): nat {
    page * size
  }

  function Page<T>(ordered: seq<T>, page: nat, size: nat): seq<T>
    requires page > 0
  {
    Select(ordered, Limit(size, Boundary(page - 1, size)))
  }

  /** n pages are enough for count rows, and n - 1 are not. */
  predicate IsPageCount(n: nat, count: nat, size: nat) {
    count <= Boundary(n, size) && (n > 0 ==> Boundary(n - 1, size) < count)
  }

  function NumPages(count: nat, size: nat): (n: nat)
    requires size > 0
    ensures IsPageCount(n, count, size)
  {
    (count + size - 1) / size
  }

  lemma PageIs<T>(ordered: seq<T>, page: nat, size: nat)
    requires page > 0
    ensures 0 <= (page - 1) * size <= page * size
    ensures Page(ordered, page, size) == ordered[Min((page - 1) * size, |ordered|)..Min(page * size, |ordered|)]
  {
    assert page * size == (page - 1) * size + size;
  }

  /** `ordered` is what the server would list without pagination and `count` what it counts, in two statements each
      of which may fail; rows may change in between. */
  method GetPaginatedChartList(ordered: Option<seq<Chart>>, count: Option<nat>, pageNumber: int, pageSize: int)
      returns (r: Result<(seq<Chart>, nat), string>)
    ensures r.Err? <==> ordered.None? || (pageSize > 0 && count.None?)
    ensures r.Ok? && pageSize <= 0 ==> r.value == (ordered.value, 1)
    ensures r.Ok? && pageSize > 0 ==>
      && r.value.0 == Page(ordered.value, if pageNumber > 0 then pageNumber else 1, pageSize)
      && IsPageCount(r.value.1, count.value, pageSize)
    ensures r.Ok? && pageSize > 0 ==>
      var page, rows := if pageNumber > 0 then pageNumber else 1, ordered.value;
      r.value.0 == rows[Min((page - 1) * pageSize, |rows|)..Min(page * pageSize, |rows|)]
  {
    if ordered.Some? && pageSize > 0 {
      PageIs(ordered.value, if pageNumber > 0 then pageNumber else 1, pageSize);
    }
    var page := pageNumber;
    if page <= 0 {
      page := 1;
    }
    var paginationClause := Everything;
    if pageSize > 0 {
      paginationClause := Limit(pageSize, Boundary(page - 1, pageSize));
    }
    if ordered.None? {
      return Err("query");
    }
    var numPages := 1;
    if pageSize > 0 {
      if count.None? {
        return Err("count");
      }
      numPages := NumPages(count.value, pageSize);
    }
    return Ok((Select(ordered.value, paginationClause), numPages));
  }

  lemma BoundaryStep(page: nat, size: nat)
    requires page > 0
    ensures Boundary(page, size) == Boundary(page - 1, size) + size
  {
  }

  lemma BoundaryMonotone(p: nat, q: nat, size: nat)
    requires p <= q
    ensures Boundary(p, size) <= Boundary(q, size)
  {
  }

  function Pages<T>(ordered: seq<T>, size: nat, n: nat): seq<T> {
    if n == 0 then [] else Pages(ordered, size, n - 1) + Page(ordered, n, size)
  }

  lemma {:induction false} PagesAreAPrefix<T>(ordered: seq<T>, size: nat, n: nat)
    ensures Pages(ordered, size, n) == ordered[..Min(Boundary(n, size), |ordered|)]
  {
    if n > 0 {
      PagesAreAPrefix(ordered, size, n - 1);
      BoundaryStep(n, size);
    }
  }

  /** The pages up to the page count are the whole list; a page is empty exactly when it is beyond the count. */
  lemma PagesConcatenate<T>(ordered: seq<T>, size: nat, page: nat)
    requires size > 0 && page > 0
    ensures Pages(ordered, size, NumPages(|ordered|, size)) == ordered
    ensures Page(ordered, page, size) == [] <==> page > NumPages(|ordered|, size)
  {
    var n := NumPages(|ordered|, size);
    PagesAreAPrefix(ordered, size, n);
    if page > n {
      BoundaryMonotone(n, page - 1, size);
    } else {
      BoundaryMonotone(page - 1, n - 1, size);
    }
  }

  // ----- The reducer -----

  datatype State = State(isFetching: bool, hasFinishedFetching: bool, items: seq<Chart>)

  datatype Action = RequestCharts | ReceiveCharts(items: seq<Chart>, page: nat, totalPages: nat) | ResetRequestCharts

  predicate HasId(s: seq<Chart>, id: string) {
    exists i :: 0 <= i < |s| && s[i].id == id
  }

  ghost predicate DistinctIds(s: seq<Chart>) {
    forall i, j :: 0 <= i < j < |s| ==> s[i].id != s[j].id
  }

  /** c is the first chart of its id in s. */
  ghost predicate IsFirst(s: seq<Chart>, c: Chart) {
    exists k :: 0 <= k < |s| && s[k] == c && !HasId(s[..k], c.id)
  }

  // lodash's uniqBy with key "id": the first of each id stays.
  function UniqBy(s: seq<Chart>): seq<Chart> {
    if s == [] then []
    else
      var before, last := UniqBy(s[..|s| - 1]), s[|s| - 1];
      if HasId(before, last.id) then before else before + [last]
  }

  function Reduce(state: State, action: Action): State {
    match action
    case RequestCharts => state.(isFetching := true)
    case ReceiveCharts(items, page, totalPages) =>
      State(false, page >= totalPages, UniqBy(state.items + items))
    case ResetRequestCharts => state.(hasFinishedFetching := false, items := [])
  }

  lemma {:induction false} UniqBySameIds(s: seq<Chart>, id: string)
    ensures HasId(UniqBy(s), id) <==> HasId(s, id)
  {
    if s != [] {
      var before, last := UniqBy(s[..|s| - 1]), s[|s| - 1];
      UniqBySameIds(s[..|s| - 1], id);
      assert HasId(s, id) <==> HasId(s[..|s| - 1], id) || last.id == id by {
        if HasId(s[..|s| - 1], id) {
          var i :| 0 <= i < |s| - 1 && s[..|s| - 1][i].id == id;
          assert s[i].id == id;
        }
        if i :| 0 <= i < |s| && s[i].id == id && i < |s| - 1 {
          assert s[..|s| - 1][i].id == id;
        }
      }
      if HasId(before, id) {
        var i :| 0 <= i < |before| && before[i].id == id;
        assert (before + [last])[i].id == id;
      }
      assert (before + [last])[|before|].id == last.id;
    }
  }

  lemma {:induction false} UniqByDistinct(s: seq<Chart>)
    ensures DistinctIds(UniqBy(s))
  {
    if s != [] {
      UniqByDistinct(s[..|s| - 1]);
    }
  }

  lemma FirstOfLonger(shorter: seq<Chart>, last: Chart, c: Chart)
    ensures IsFirst(shorter + [last], c) <==> IsFirst(shorter, c) || (c == last && !HasId(shorter, last.id))
  {
    var s := shorter + [last];
    assert s[..|shorter|] == shorter && forall k :: 0 <= k <= |shorter| ==> s[..k] == shorter[..k];
    if IsFirst(shorter, c) {
      var k :| 0 <= k < |shorter| && shorter[k] == c && !HasId(shorter[..k], c.id);
      assert s[k] == c && !HasId(s[..k], c.id);
    }
    if c == last && !HasId(shorter, last.id) {
      assert s[|shorter|] == c;
    }
  }

  lemma {:induction false} UniqByKeepsFirst(s: seq<Chart>, c: Chart)
    ensures c in UniqBy(s) <==> IsFirst(s, c)
  {
    if s != [] {
      var shorter, last := s[..|s| - 1], s[|s| - 1];
      UniqByKeepsFirst(shorter, c);
      UniqBySameIds(shorter, last.id);
      assert s == shorter + [last];
      FirstOfLonger(shorter, last, c);
      assert c in UniqBy(shorter) + [last] <==> c in UniqBy(shorter) || c == last;
    }
  }

  /** These are positions in s, in order, with what is there. */
  ghost predicate PicksAt(s: seq<Chart>, ks: seq<nat>, picked: seq<Chart>) {
    Increasing(ks) && |ks| == |picked| && forall j :: 0 <= j < |ks| ==> ks[j] < |s| && picked[j] == s[ks[j]]
  }

  lemma PicksLonger(shorter: seq<Chart>, last: Chart, ks: seq<nat>, picked: seq<Chart>)
    requires PicksAt(shorter, ks, picked)
    ensures PicksAt(shorter + [last], ks, picked)
    ensures PicksAt(shorter + [last], ks + [|shorter|], picked + [last])
  {
  }

  /** What is kept stays in order. */
  lemma {:induction false} UniqByInOrder(s: seq<Chart>) returns (ks: seq<nat>)
    ensures PicksAt(s, ks, UniqBy(s))
  {
    if s == [] {
      ks := [];
    } else {
      var shorter, last := s[..|s| - 1], s[|s| - 1];
      ks := UniqByInOrder(shorter);
      PicksLonger(shorter, last, ks, UniqBy(shorter));
      assert s == shorter + [last];
      ks := if HasId(UniqBy(shorter), last.id) then ks else ks + [|shorter|];
    }
  }

  function AfterAll(state: State, actions: seq<Action>): State {
    if actions == [] then state else Reduce(AfterAll(state, actions[..|actions| - 1]), actions[|actions| - 1])
  }

  /** The dashboard shows that it is fetching from a request until the next answer, whatever else is dispatched. */
  lemma {:induction false} FetchingUntilAnswered(state: State, actions: seq<Action>, k: nat)
    requires k < |actions| && !actions[k].ResetRequestCharts?
    requires forall j :: k < j < |actions| ==> actions[j].ResetRequestCharts?
    ensures AfterAll(state, actions).isFetching <==> actions[k].RequestCharts?
    decreases |actions|
  {
    var before := actions[..|actions| - 1];
    if k < |before| {
      FetchingUntilAnswered(state, before, k);
    }
  }

  /** Nothing is dropped exactly when no id repeats. */
  lemma {:induction false} UniqByKeepsAllIff(s: seq<Chart>)
    ensures |UniqBy(s)| <= |s|
    ensures UniqBy(s) == s <==> DistinctIds(s)
  {
    if s != [] {
      var shorter, last := s[..|s| - 1], s[|s| - 1];
      UniqByKeepsAllIff(shorter);
      UniqByDistinct(s);
      UniqBySameIds(shorter, last.id);
      if DistinctIds(s) {
        assert !HasId(shorter, last.id);
      }
    }
  }

  lemma {:induction false} UniqByAppend(a: seq<Chart>, b: seq<Chart>)
    ensures UniqBy(UniqBy(a) + b) == UniqBy(a + b)
  {
    if b == [] {
      assert UniqBy(a) + b == UniqBy(a) && a + b == a;
      UniqByDistinct(a);
      UniqByKeepsAllIff(UniqBy(a));
    } else {
      var shorter := b[..|b| - 1];
      UniqByAppend(a, shorter);
      assert (UniqBy(a) + b)[..|UniqBy(a) + b| - 1] == UniqBy(a) + shorter;
      assert (a + b)[..|a + b| - 1] == a + shorter;
    }
  }

  /** The state after the pages listed arrive one by one, each with the page count the server gives. */
  function Feed(state: State, ordered: seq<Chart>, size: nat, pages: seq<PageNumber>): State
    requires size > 0
  {
    if pages == [] then state
    else
      var before, page := Feed(state, ordered, size, pages[..|pages| - 1]), pages[|pages| - 1];
      Reduce(Reduce(before, RequestCharts), ReceiveCharts(Page(ordered, page, size), page, NumPages(|ordered|, size)))
  }

  function UpTo(n: nat): seq<PageNumber> {
    seq(n, i requires 0 <= i < n => i + 1)
  }

  lemma {:induction false} FedItems(state: State, ordered: seq<Chart>, size: nat, n: nat)
    requires size > 0 && state.items == []
    ensures Feed(state, ordered, size, UpTo(n)).items == UniqBy(Pages(ordered, size, n))
  {
    if n > 0 {
      FedItems(state, ordered, size, n - 1);
      assert UpTo(n)[..|UpTo(n)| - 1] == UpTo(n - 1);
      UniqByAppend(Pages(ordered, size, n - 1), Page(ordered, n, size));
    }
  }

  /** Pages 1 to n in order: the items are the list so far without repeated ids, and fetching is finished on the last
      page and not before. */
  lemma FedInOrder(state: State, ordered: seq<Chart>, size: nat, n: nat)
    requires size > 0
    ensures var fed := Feed(Reduce(state, ResetRequestCharts), ordered, size, UpTo(n));
            var total := NumPages(|ordered|, size);
            && fed.items == UniqBy(ordered[..Min(n * size, |ordered|)])
            && (fed.hasFinishedFetching <==> n > 0 && n >= total)
            && (n >= total ==> fed.items == UniqBy(ordered))
  {
    FedItems(Reduce(state, ResetRequestCharts), ordered, size, n);
    PagesAreAPrefix(ordered, size, n);
    if n >= NumPages(|ordered|, size) {
      BoundaryMonotone(NumPages(|ordered|, size), n, size);
      assert ordered[..|ordered|] == ordered;
    }
  }

  lemma HasIdConcat(a: seq<Chart>, b: seq<Chart>, id: string)
    ensures HasId(a + b, id) <==> HasId(a, id) || HasId(b, id)
  {
    if i :| 0 <= i < |a| && a[i].id == id {
      assert (a + b)[i].id == id;
    }
    if i :| 0 <= i < |b| && b[i].id == id {
      assert (a + b)[|a| + i].id == id;
    }
  }

  /** Repeats and reorderings lead to the same ids: those of the pages that arrived, each once. */
  lemma {:induction false} FedInAnyOrder(state: State, ordered: seq<Chart>, size: nat, pages: seq<PageNumber>,
                                         id: string)
    requires size > 0
    requires state.items == []
    ensures var fed := Feed(state, ordered, size, pages);
            && DistinctIds(fed.items)
            && (HasId(fed.items, id) <==> exists p :: p in pages && HasId(Page(ordered, p, size), id))
            && (pages != [] ==> (fed.hasFinishedFetching <==> pages[|pages| - 1] >= NumPages(|ordered|, size)))
  {
    if pages != [] {
      var before, page := pages[..|pages| - 1], pages[|pages| - 1];
      FedInAnyOrder(state, ordered, size, before, id);
      var items := Feed(state, ordered, size, before).items + Page(ordered, page, size);
      UniqByDistinct(items);
      UniqBySameIds(items, id);
      HasIdConcat(Feed(state, ordered, size, before).items, Page(ordered, page, size), id);
      assert forall p :: p in pages <==> p in before || p == page;
    }
  }

  /** Once every page has arrived, in whatever order and however often, no id of the list is missing. */
  lemma EveryPageIsEnough(state: State, ordered: seq<Chart>, size: nat, pages: seq<PageNumber>, id: string)
    requires size > 0
    requires state.items == [] && forall p :: 1 <= p <= NumPages(|ordered|, size) ==> p in pages
    ensures HasId(Feed(state, ordered, size, pages).items, id) <==> HasId(ordered, id)
  {
    FedInAnyOrder(state, ordered, size, pages, id);
    if p :| p in pages && HasId(Page(ordered, p, size), id) {
      var c :| c in Page(ordered, p, size) && c.id == id;
      assert c in ordered;
    }
    if k :| 0 <= k < |ordered| && ordered[k].id == id {
      var p := OnePage(ordered, size, k);
      assert p in pages;
    }
  }

  // ----- One ordering per request -----

  lemma OnPage<T>(ordered: seq<T>, page: nat, size: nat, k: nat)
    requires page > 0 && k < |ordered| && Boundary(page - 1, size) <= k < Boundary(page, size)
    ensures ordered[k] in Page(ordered, page, size)
  {
    BoundaryStep(page, size);
    assert Page(ordered, page, size)[k - Boundary(page - 1, size)] == ordered[k];
  }

  lemma NotOnPage<T>(ordered: seq<T>, page: nat, size: nat, c: T)
    requires page > 0
    requires forall k :: Boundary(page - 1, size) <= k < Boundary(page, size) && k < |ordered| ==> ordered[k] != c
    ensures c !in Page(ordered, page, size)
  {
    BoundaryStep(page, size);
  }

  /** The boundary after page p lies at the start of page p + 1 and outside every other. */
  lemma PageLies(p: nat, q: nat, size: nat)
    requires q > 0 && size > 0
    ensures if q == p + 1 then Boundary(q - 1, size) == Boundary(p, size)
            else Boundary(p, size) < Boundary(q - 1, size) || Boundary(q, size) <= Boundary(p, size)
  {
    if q <= p {
      BoundaryMonotone(q, p, size);
    } else if q > p + 1 {
      BoundaryMonotone(p + 1, q - 1, size);
      BoundaryStep(p + 1, size);
    }
  }

  lemma PageOf(count: nat, size: nat, k: nat) returns (page: nat)
    requires size > 0 && k < count
    ensures 1 <= page <= NumPages(count, size) && Boundary(page - 1, size) <= k < Boundary(page, size)
  {
    page := k / size + 1;
    if NumPages(count, size) < page {
      BoundaryMonotone(NumPages(count, size), page - 1, size);
    }
  }

  lemma OnePage<T>(ordered: seq<T>, size: nat, k: nat) returns (page: nat)
    requires size > 0 && k < |ordered|
    ensures 1 <= page <= NumPages(|ordered|, size) && ordered[k] in Page(ordered, page, size)
  {
    page := PageOf(|ordered|, size, k);
    OnPage(ordered, page, size, k);
  }

  /** Each request sorts the table anew; rows of one name come in any order. */
  ghost predicate Orderings<T>(le: (T, T) -> bool, table: seq<T>, size: nat, orders: seq<seq<T>>)
    requires size > 0
  {
    |orders| == NumPages(|table|, size) && forall p :: 0 <= p < |orders| ==> IsSorting(le, table, orders[p])
  }

  ghost predicate Listed<T>(size: nat, orders: seq<seq<T>>, c: T) {
    exists i :: 0 <= i < |orders| && c in Page(orders[i], i + 1, size)
  }

  /** No two rows on either side of a page boundary have the same name. */
  ghost predicate NoTieAtBoundary<T>(le: (T, T) -> bool, sorted: seq<T>, size: nat) {
    forall p :: 1 <= p && 1 <= Boundary(p, size) < |sorted| ==>
      !Tied(le, sorted[Boundary(p, size) - 1], sorted[Boundary(p, size)])
  }

  ghost function TiedWith<T(!new)>(le: (T, T) -> bool): T -> iset<T> {
    x => iset y | Tied(le, x, y)
  }

  lemma TiesTieAlike<T(!new)>(le: (T, T) -> bool, s: seq<T>)
    requires TotalPreorder(le)
    ensures TiesLookAlike(le, TiedWith(le), s)
  {
    forall x, y | x in s && y in s && Tied(le, x, y) ensures TiedWith(le)(x) == TiedWith(le)(y) {
      assert forall z :: Tied(le, x, z) <==> Tied(le, y, z);
    }
  }

  lemma SortingsTie<T(!new)>(le: (T, T) -> bool, a: seq<T>, b: seq<T>, i: nat)
    requires TotalPreorder(le) && Sorted(le, a) && IsSorting(le, a, b) && i < |a|
    ensures |a| == |b| && Tied(le, a[i], b[i])
  {
    var show := TiedWith(le);
    TiesTieAlike(le, a);
    SortingsLookAlike(le, show, a, b);
    assert Map(show, a)[i] == Map(show, b)[i];
    assert le(a[i], a[i]) && a[i] in show(a[i]);
    assert a[i] in show(b[i]);
  }

  lemma SideOf<T(!new)>(le: (T, T) -> bool, a: seq<T>, o: seq<T>, b: nat, m: nat)
    requires TotalPreorder(le) && Sorted(le, a) && IsSorting(le, a, o) && |o| == |a|
    requires 1 <= b < |a| && m < |a|
    ensures if m < b then le(o[m], a[b - 1]) else le(a[b], o[m])
  {
    SortingsTie(le, a, o, b - 1);
    SortingsTie(le, a, o, b);
    assert le(o[m], o[m]);
    if m < b {
      assert le(o[m], o[b - 1]);
    } else {
      assert le(o[b], o[m]);
    }
  }

  /** An element stays on its side of an untied boundary in every sorting. */
  lemma KeepsSide<T(!new)>(le: (T, T) -> bool, a: seq<T>, o: seq<T>, b: nat, k: nat, m: nat)
    requires TotalPreorder(le) && Sorted(le, a) && IsSorting(le, a, o)
    requires 1 <= b < |a| && !Tied(le, a[b - 1], a[b])
    requires k < |a| && m < |o| && a[k] == o[m]
    ensures k < b <==> m < b
  {
    SameMembers(a, o);
    SideOf(le, a, o, b, m);
    SideOf(le, a, a, b, k);
    assert le(a[b - 1], a[b]);
  }

  lemma SamePage<T(!new)>(le: (T, T) -> bool, sorted: seq<T>, o: seq<T>, size: nat, page: nat, k: nat, m: nat)
    requires TotalPreorder(le) && size > 0 && page > 0 && Sorted(le, sorted) && IsSorting(le, sorted, o)
    requires NoTieAtBoundary(le, sorted, size) && k < |sorted| && m < |o| && o[m] == sorted[k]
    requires Boundary(page - 1, size) <= k < Boundary(page, size)
    ensures Boundary(page - 1, size) <= m < Boundary(page, size)
  {
    SameMembers(sorted, o);
    if page > 1 {
      BoundaryMonotone(1, page - 1, size);
      KeepsSide(le, sorted, o, Boundary(page - 1, size), k, m);
    }
    if Boundary(page, size) < |sorted| {
      KeepsSide(le, sorted, o, Boundary(page, size), k, m);
    }
  }

  lemma ListedWithoutTies<T(!new)>(le: (T, T) -> bool, sorted: seq<T>, size: nat, orders: seq<seq<T>>, k: nat)
    requires TotalPreorder(le) && size > 0 && Sorted(le, sorted) && Orderings(le, sorted, size, orders)
    requires NoTieAtBoundary(le, sorted, size) && k < |sorted|
    ensures Listed(size, orders, sorted[k])
  {
    var page := PageOf(|sorted|, size, k);
    var o := orders[page - 1];
    SameMembers(sorted, o);
    assert sorted[k] in o;
    var m :| 0 <= m < |o| && o[m] == sorted[k];
    SamePage(le, sorted, o, size, page, k, m);
    OnPage(o, page, size, m);
  }

  /** With a tie at the boundary after page p, page p from one ordering and page p + 1 from the other miss a row. */
  lemma TieMissesRow<T(!new)>(le: (T, T) -> bool, sorted: seq<T>, size: nat, p: nat) returns (orders: seq<seq<T>>)
    requires TotalPreorder(le) && Sorted(le, sorted) && Distinct(sorted) && size > 0 && p > 0
    requires 1 <= Boundary(p, size) < |sorted| && Tied(le, sorted[Boundary(p, size) - 1], sorted[Boundary(p, size)])
    ensures Orderings(le, sorted, size, orders) && !Listed(size, orders, sorted[Boundary(p, size)])
  {
    var b, n := Boundary(p, size), NumPages(|sorted|, size);
    var swapped := Swap(sorted, b - 1, b);
    SwapTied(le, sorted, b - 1, b);
    orders := seq(n, i requires 0 <= i < n => if i == p then swapped else sorted);
    forall i | 0 <= i < n ensures sorted[b] !in Page(orders[i], i + 1, size) {
      var q, o := i + 1, orders[i];
      PageLies(p, q, size);
      forall k | Boundary(q - 1, size) <= k < Boundary(q, size) && k < |o| ensures o[k] != sorted[b] {
      }
      NotOnPage(o, q, size, sorted[b]);
    }
  }

  /** Fetching every page shows every row, whatever the server does with equal names on each request, exactly when no
      page boundary separates two rows of the same name. */
  lemma PagesCoverIffNoTieAtBoundary<T(!new)>(le: (T, T) -> bool, sorted: seq<T>, size: nat)
    requires TotalPreorder(le) && Sorted(le, sorted) && Distinct(sorted) && size > 0
    ensures NoTieAtBoundary(le, sorted, size) <==>
            forall orders, c :: Orderings(le, sorted, size, orders) && c in sorted ==> Listed(size, orders, c)
  {
    if NoTieAtBoundary(le, sorted, size) {
      forall orders, c | Orderings(le, sorted, size, orders) && c in sorted ensures Listed(size, orders, c) {
        var k :| 0 <= k < |sorted| && sorted[k] == c;
        ListedWithoutTies(le, sorted, size, orders, k);
      }
    } else {
      var p :| 1 <= p && 1 <= Boundary(p, size) < |sorted|
        && Tied(le, sorted[Boundary(p, size) - 1], sorted[Boundary(p, size)]);
      var orders := TieMissesRow(le, sorted, size, p);
      assert sorted[Boundary(p, size)] in sorted;
    }
  }
}
