/** ChartsFromIndex: from a parsed Helm index to the sorted list of charts. */
module HelmIndex {
  import opened Wrappers
  import opened Sequences
  import opened Sorting
  import opened Text
  import opened Catalogue
  import opened ShallowPass
  import opened SyncRun
  import FileImport

  /** One version in an index entry; entries come newest first. */
  datatype Entry = Entry(name: string, deprecated: bool, details: string, version: ChartVersion)

  type Index = map<string, seq<Entry>>

  /** The library functions used: path escaping, which is injective, and a sort on chart ids. */
  datatype Library = Library(escape: string -> string, sort: seq<Chart> -> seq<Chart>)

  predicate IdLe(a: Chart, b: Chart) {
    LexLe(a.id, b.id)
  }

  ghost predicate Lawful(lib: Library) {
    Sorts(IdLe, lib.sort) && forall x, y :: lib.escape(x) == lib.escape(y) ==> x == y
  }

  function NewChart(lib: Library, repo: RepoKey, entry: seq<Entry>, shallow: bool): Chart
    requires entry != []
  {
    var name := lib.escape(entry[0].name);
    Chart(repo.name + "/" + name, name, entry[0].details,
          Map((e: Entry) => e.version, if shallow then entry[..1] else entry))
  }

  predicate IsListed(entry: seq<Entry>) {
    entry != [] && !entry[0].deprecated
  }

  // The charts appended for one key of the index.
  function Listed(lib: Library, repo: RepoKey, index: Index, shallow: bool): string -> seq<Chart> {
    (k: string) =>
      if k in index && IsListed(index[k]) then [NewChart(lib, repo, index[k], shallow)] else []
  }

  /** What is made of an entry: the escaped name, the id it has in the repository, the details of its newest version,
      and all its versions or that one alone. */
  ghost predicate ComesOutAs(lib: Library, repo: RepoKey, entry: seq<Entry>, shallow: bool, c: Chart)
    requires entry != []
  {
    && c.name == lib.escape(entry[0].name) && c.id == repo.name + "/" + lib.escape(entry[0].name)
    && c.details == entry[0].details
    && |c.versions| == (if shallow then 1 else |entry|)
    && forall i :: 0 <= i < |c.versions| ==> c.versions[i] == entry[i].version
  }

  lemma NewChartComesOut(lib: Library, repo: RepoKey, entry: seq<Entry>, shallow: bool, c: Chart)
    requires entry != []
    ensures ComesOutAs(lib, repo, entry, shallow, c) <==> c == NewChart(lib, repo, entry, shallow)
  {
    if ComesOutAs(lib, repo, entry, shallow, c) {
      assert c.versions == NewChart(lib, repo, entry, shallow).versions;
    }
  }

  /** The entries that come out as this chart and whose newest version is not deprecated. */
  ghost function EntriesFor(lib: Library, repo: RepoKey, index: Index, shallow: bool, c: Chart): set<string> {
    set k | k in index && index[k] != [] && !index[k][0].deprecated && ComesOutAs(lib, repo, index[k], shallow, c)
  }

  lemma EntriesAreHits(lib: Library, repo: RepoKey, index: Index, shallow: bool, c: Chart, hit: string -> bool)
    requires forall k :: hit(k) <==> k in index && IsListed(index[k]) && c == NewChart(lib, repo, index[k], shallow)
    ensures Hits(index.Keys, hit) == EntriesFor(lib, repo, index, shallow, c)
  {
    forall k | k in index && index[k] != []
      ensures ComesOutAs(lib, repo, index[k], shallow, c) <==> c == NewChart(lib, repo, index[k], shallow)
    {
      NewChartComesOut(lib, repo, index[k], shallow, c);
    }
  }

  lemma ListedOnce(lib: Library, repo: RepoKey, index: Index, order: seq<string>, shallow: bool, charts: seq<Chart>,
                   c: Chart)
    requires IsListing(index.Keys, order)
    requires multiset(charts) == multiset(FlatMap(Listed(lib, repo, index, shallow), order))
    ensures multiset(charts)[c] == |EntriesFor(lib, repo, index, shallow, c)|
  {
    var hit := (k: string) => k in index && IsListed(index[k]) && c == NewChart(lib, repo, index[k], shallow);
    CountPositions(Listed(lib, repo, index, shallow), order, c, hit);
    PositionsOfListing(index.Keys, order, hit);
    EntriesAreHits(lib, repo, index, shallow, c, hit);
  }

  lemma SortedIsListed(lib: Library, repo: RepoKey, index: Index, order: seq<string>, shallow: bool, listed: seq<Chart>)
    requires Lawful(lib) && IsListing(index.Keys, order) && listed == FlatMap(Listed(lib, repo, index, shallow), order)
    ensures var sorted := lib.sort(listed);
            && IsSorting(IdLe, listed, sorted)
            && (forall i, j :: 0 <= i < j < |sorted| ==> LexLe(sorted[i].id, sorted[j].id))
            && (forall c :: multiset(sorted)[c] == |EntriesFor(lib, repo, index, shallow, c)|)
  {
    var sorted := lib.sort(listed);
    assert IsSorting(IdLe, listed, sorted);
    forall i, j | 0 <= i < j < |sorted| ensures LexLe(sorted[i].id, sorted[j].id) {
      assert IdLe(sorted[i], sorted[j]);
    }
    forall c ensures multiset(sorted)[c] == |EntriesFor(lib, repo, index, shallow, c)| {
      ListedOnce(lib, repo, index, order, shallow, sorted, c);
    }
  }

  lemma NextListed(lib: Library, repo: RepoKey, index: Index, order: seq<string>, shallow: bool, i: nat)
    requires IsListing(index.Keys, order) && i < |order|
    ensures order[i] in index && order[..i + 1] == order[..i] + [order[i]]
    ensures FlatMap(Listed(lib, repo, index, shallow), order[..i + 1])
         == FlatMap(Listed(lib, repo, index, shallow), order[..i]) + Listed(lib, repo, index, shallow)(order[i])
  {
    assert order[i] in order && order[..i + 1] == order[..i] + [order[i]];
    FlatMapSnoc(Listed(lib, repo, index, shallow), order[..i], order[i]);
  }

  /** None is the panic on an entry without versions.  Otherwise the charts come sorted by id, one for each entry whose
      newest version is not deprecated. */
  method ChartsFromIndex(lib: Library, repo: RepoKey, index: Index, order: seq<string>, shallow: bool)
      returns (charts: Option<seq<Chart>>)
    requires Lawful(lib) && IsListing(index.Keys, order)
    ensures charts.None? <==> exists k :: k in index && index[k] == []
    ensures charts.Some? ==> IsSorting(IdLe, FlatMap(Listed(lib, repo, index, shallow), order), charts.value)
    ensures charts.Some? ==> forall i, j :: 0 <= i < j < |charts.value| ==>
      LexLe(charts.value[i].id, charts.value[j].id)
    ensures charts.Some? ==> forall c ::
      multiset(charts.value)[c] == |EntriesFor(lib, repo, index, shallow, c)|
  {
    var listed := [];
    for i := 0 to |order|
      invariant forall k :: k in order[..i] ==> index[k] != []
      invariant listed == FlatMap(Listed(lib, repo, index, shallow), order[..i])
    {
      NextListed(lib, repo, index, order, shallow, i);
      var entry := index[order[i]];
      if entry == [] {
        return None;
      }
      if !entry[0].deprecated {
        listed := listed + [NewChart(lib, repo, entry, shallow)];
      }
    }
    assert order[..|order|] == order;
    SortedIsListed(lib, repo, index, order, shallow, listed);
    return Some(lib.sort(listed));
  }

  lemma IdLeIsTotal()
    ensures TotalPreorder(IdLe)
  {
    forall a: Chart, b: Chart ensures IdLe(a, b) || IdLe(b, a) {
      LexTotal(a.id, b.id);
    }
    forall a: Chart, b: Chart, c: Chart | IdLe(a, b) && IdLe(b, c) ensures IdLe(a, c) {
      LexTransitive(a.id, b.id, c.id);
    }
  }

  /** Entries that are listed under one newest name come out as one chart: above all when no two have the same. */
  ghost predicate AlikeNames(lib: Library, repo: RepoKey, index: Index, shallow: bool) {
    forall k, l |
      k in index && l in index && IsListed(index[k]) && IsListed(index[l]) && index[k][0].name == index[l][0].name ::
      NewChart(lib, repo, index[k], shallow) == NewChart(lib, repo, index[l], shallow)
  }

  lemma ListedIsOf(lib: Library, repo: RepoKey, index: Index, shallow: bool, order: seq<string>, c: Chart)
      returns (k: string)
    requires c in FlatMap(Listed(lib, repo, index, shallow), order)
    ensures k in index && IsListed(index[k]) && c == NewChart(lib, repo, index[k], shallow)
  {
    InFlatMap(Listed(lib, repo, index, shallow), order, c);
    k :| k in order && c in Listed(lib, repo, index, shallow)(k);
  }

  lemma SameIdSameName(lib: Library, repo: RepoKey, a: seq<Entry>, b: seq<Entry>, shallow: bool)
    requires Lawful(lib) && a != [] && b != []
    ensures NewChart(lib, repo, a, shallow).id == NewChart(lib, repo, b, shallow).id <==> a[0].name == b[0].name
  {
    SamePrefix(repo.name + "/", lib.escape(a[0].name), lib.escape(b[0].name));
  }

  lemma ListedAlike(lib: Library, repo: RepoKey, index: Index, shallow: bool, order: seq<string>)
    requires Lawful(lib) && AlikeNames(lib, repo, index, shallow)
    ensures TiesLookAlike(IdLe, (c: Chart) => c, FlatMap(Listed(lib, repo, index, shallow), order))
  {
    var listed := FlatMap(Listed(lib, repo, index, shallow), order);
    forall x, y | x in listed && y in listed && Tied(IdLe, x, y) ensures x == y {
      LexTotal(x.id, y.id);
      var k := ListedIsOf(lib, repo, index, shallow, order, x);
      var l := ListedIsOf(lib, repo, index, shallow, order, y);
      SameIdSameName(lib, repo, index[k], index[l], shallow);
    }
  }

  /** With such names the list depends neither on the order in which Go ranges over the index nor on how the sort treats
      ties. */
  lemma IndependentOfIterationOrder(lib: Library, repo: RepoKey, index: Index, shallow: bool,
                                    order: seq<string>, a: seq<Chart>, order': seq<string>, b: seq<Chart>)
    requires Lawful(lib) && AlikeNames(lib, repo, index, shallow)
    requires IsListing(index.Keys, order) && IsSorting(IdLe, FlatMap(Listed(lib, repo, index, shallow), order), a)
    requires IsListing(index.Keys, order') && IsSorting(IdLe, FlatMap(Listed(lib, repo, index, shallow), order'), b)
    ensures a == b
  {
    var listed := FlatMap(Listed(lib, repo, index, shallow), order);
    ListingsArePermutations(index.Keys, order, order');
    FlatMapPermuted(Listed(lib, repo, index, shallow), order, order');
    IdLeIsTotal();
    ListedAlike(lib, repo, index, shallow, order);
    OneAnswerIffTiesLookAlike(IdLe, (c: Chart) => c, listed);
    assert Map((c: Chart) => c, a) == a && Map((c: Chart) => c, b) == b;
    assert IsSorting(IdLe, listed, b);
  }

  ghost predicate OneList(lib: Library, repo: RepoKey, index: Index, shallow: bool) {
    forall order, order', a, b ::
      && IsListing(index.Keys, order) && IsSorting(IdLe, FlatMap(Listed(lib, repo, index, shallow), order), a)
      && IsListing(index.Keys, order') && IsSorting(IdLe, FlatMap(Listed(lib, repo, index, shallow), order'), b)
      ==> a == b
  }

  lemma TwoLists(lib: Library, repo: RepoKey, index: Index, shallow: bool, k: string, l: string)
    requires Lawful(lib) && k in index && l in index && IsListed(index[k]) && IsListed(index[l])
    requires index[k][0].name == index[l][0].name
    requires NewChart(lib, repo, index[k], shallow) != NewChart(lib, repo, index[l], shallow)
    ensures !OneList(lib, repo, index, shallow)
  {
    var order := SomeListing(index.Keys);
    var f := Listed(lib, repo, index, shallow);
    var x, y := NewChart(lib, repo, index[k], shallow), NewChart(lib, repo, index[l], shallow);
    InFlatMap(f, order, x);
    InFlatMap(f, order, y);
    assert x in f(k) && y in f(l);
    SameIdSameName(lib, repo, index[k], index[l], shallow);
    LexTotal(x.id, y.id);
    IdLeIsTotal();
    assert Tied(IdLe, x, y);
    var show := (c: Chart) => c;
    assert show(x) != show(y);
    OneAnswerIffTiesLookAlike(IdLe, show, FlatMap(f, order));
    var a, b :| IsSorting(IdLe, FlatMap(f, order), a) && IsSorting(IdLe, FlatMap(f, order), b)
      && Map(show, a) != Map(show, b);
  }

  /** The index settles its list of charts exactly when entries listed under one newest name come out as one chart. */
  lemma OneListIffAlikeNames(lib: Library, repo: RepoKey, index: Index, shallow: bool)
    requires Lawful(lib)
    ensures AlikeNames(lib, repo, index, shallow) <==> OneList(lib, repo, index, shallow)
  {
    if AlikeNames(lib, repo, index, shallow) {
      forall order, order', a, b |
        && IsListing(index.Keys, order) && IsSorting(IdLe, FlatMap(Listed(lib, repo, index, shallow), order), a)
        && IsListing(index.Keys, order') && IsSorting(IdLe, FlatMap(Listed(lib, repo, index, shallow), order'), b)
        ensures a == b
      {
        IndependentOfIterationOrder(lib, repo, index, shallow, order, a, order', b);
      }
    } else {
      var k, l :| k in index && l in index && IsListed(index[k]) && IsListed(index[l])
        && index[k][0].name == index[l][0].name
        && NewChart(lib, repo, index[k], shallow) != NewChart(lib, repo, index[l], shallow);
      TwoLists(lib, repo, index, shallow, k, l);
    }
  }

  // ----- Shallow and full lists -----

  function Cut(c: Chart): Chart {
    c.(versions := if c.versions == [] then [] else c.versions[..1])
  }

  lemma OneCut(lib: Library, repo: RepoKey, index: Index, k: string)
    ensures Listed(lib, repo, index, true)(k) == Map(Cut, Listed(lib, repo, index, false)(k))
  {
    if k in index && IsListed(index[k]) {
      assert NewChart(lib, repo, index[k], true) == Cut(NewChart(lib, repo, index[k], false));
    }
  }

  lemma {:induction false} ListedCut(lib: Library, repo: RepoKey, index: Index, order: seq<string>)
    ensures FlatMap(Listed(lib, repo, index, true), order) == Map(Cut, FlatMap(Listed(lib, repo, index, false), order))
  {
    if order != [] {
      ListedCut(lib, repo, index, order[1..]);
      OneCut(lib, repo, index, order[0]);
      var head, tail := Listed(lib, repo, index, false)(order[0]), FlatMap(Listed(lib, repo, index, false), order[1..]);
      assert Map(Cut, head + tail) == Map(Cut, head) + Map(Cut, tail);
    }
  }

  /** The shallow list is the full one with every chart cut to its first version. */
  lemma ShallowIsFullCut(lib: Library, repo: RepoKey, index: Index, order: seq<string>, full: seq<Chart>,
                         order': seq<string>, shallow: seq<Chart>)
    requires Lawful(lib) && AlikeNames(lib, repo, index, true)
    requires IsListing(index.Keys, order) && IsSorting(IdLe, FlatMap(Listed(lib, repo, index, false), order), full)
    requires IsListing(index.Keys, order') && IsSorting(IdLe, FlatMap(Listed(lib, repo, index, true), order'), shallow)
    ensures shallow == Map(Cut, full)
  {
    ListedCut(lib, repo, index, order);
    MapPermuted(Cut, FlatMap(Listed(lib, repo, index, false), order), full);
    assert Sorted(IdLe, Map(Cut, full)) by {
      forall i, j | 0 <= i < j < |full| ensures IdLe(Map(Cut, full)[i], Map(Cut, full)[j]) {
        assert IdLe(full[i], full[j]);
      }
    }
    IndependentOfIterationOrder(lib, repo, index, true, order, Map(Cut, full), order', shallow);
  }

  lemma {:induction false} KeptCut(keep: Chart -> bool, full: seq<Chart>)
    requires forall c :: c in full ==> c.versions != [] && keep(Cut(c)) == keep(c)
    ensures IsShallow(FlatMap(KeepIf(keep), Map(Cut, full)), FlatMap(KeepIf(keep), full))
  {
    if full != [] {
      KeptCut(keep, full[1..]);
      assert Map(Cut, full)[1..] == Map(Cut, full[1..]);
    }
  }

  lemma ListedHaveVersions(lib: Library, repo: RepoKey, index: Index, order: seq<string>, full: seq<Chart>)
    requires IsSorting(IdLe, FlatMap(Listed(lib, repo, index, false), order), full)
    ensures forall c :: c in full ==> c.versions != [] && c.id == FileImport.ChartId(repo, c.name)
  {
    SameMembers(FlatMap(Listed(lib, repo, index, false), order), full);
    forall c | c in full ensures c.versions != [] && c.id == FileImport.ChartId(repo, c.name) {
      var k := ListedIsOf(lib, repo, index, false, order, c);
    }
  }

  /** A first-time run on a Helm index: shallow pass then full pass leave what the full pass alone leaves exactly
      when what the first one fetches does not show, for names that come out alike, file ids without collision, and a
      filter that accepts the same charts in both passes. */
  lemma FirstRunIsOneFullPassIff(t: Tables, lib: Library, repo: RepoKey, index: Index, keep: Chart -> bool,
                                 fetchFirst: FileImport.Fetch, fetch: FileImport.Fetch, order: seq<string>,
                                 full: seq<Chart>, order': seq<string>, shallow: seq<Chart>)
    requires KeysHold(t) && Lawful(lib) && AlikeNames(lib, repo, index, true)
    requires IsListing(index.Keys, order) && IsSorting(IdLe, FlatMap(Listed(lib, repo, index, false), order), full)
    requires IsListing(index.Keys, order') && IsSorting(IdLe, FlatMap(Listed(lib, repo, index, true), order'), shallow)
    requires FileImport.DistinctKeys(repo, FileImport.FileJobs(FlatMap(KeepIf(keep), full)))
    requires forall c :: c in full ==> keep(Cut(c)) == keep(c)
    ensures var kept, first := FlatMap(KeepIf(keep), full), FlatMap(KeepIf(keep), shallow);
            Pass(Pass(t, repo, fetchFirst, first), repo, fetch, kept) == Pass(t, repo, fetch, kept)
            <==> ShallowHidden(t, repo, fetchFirst, fetch, first, kept)
  {
    ShallowIsFullCut(lib, repo, index, order, full, order', shallow);
    ListedHaveVersions(lib, repo, index, order, full);
    KeptCut(keep, full);
    ShallowPassIsRedundantIff(t, repo, fetchFirst, fetch, FlatMap(KeepIf(keep), shallow), FlatMap(KeepIf(keep), full));
  }
}
