/** The shallow pass of a first-time run: when the full pass that follows hides it, and which versions have their files
    after a run some of whose fetches fail. */
module ShallowPass {
  import opened Wrappers
  import opened Sequences
  import opened Catalogue
  import opened FileImport
  import opened SyncRun

  ghost predicate IsShallow(shallow: seq<Chart>, full: seq<Chart>) {
    |shallow| == |full|
    && forall i :: 0 <= i < |full| ==>
         full[i].versions != [] && shallow[i] == full[i].(versions := full[i].versions[..1])
  }

  lemma {:induction false} ShallowJobs(shallow: seq<Chart>, full: seq<Chart>)
    requires IsShallow(shallow, full)
    ensures FileJobs(shallow) == FlatMap(NewestJob, full) && Ids(shallow) == Ids(full)
  {
    if full == [] {
      assert shallow == [];
    } else {
      ShallowJobs(shallow[1..], full[1..]);
      assert FlatMap(OlderJobs, shallow[1..]) == [] by {
        NoOlderJobs(shallow[1..]);
      }
      NoOlderJobs(shallow);
      assert NewestJob(shallow[0]) == NewestJob(full[0]);
      assert shallow == [shallow[0]] + shallow[1..] && full == [full[0]] + full[1..];
      assert Ids(shallow) == {shallow[0].id} + Ids(shallow[1..]);
      assert Ids(full) == {full[0].id} + Ids(full[1..]);
    }
  }

  lemma {:induction false} NoOlderJobs(shallow: seq<Chart>)
    requires forall c :: c in shallow ==> |c.versions| == 1
    ensures FlatMap(OlderJobs, shallow) == []
  {
    if shallow != [] {
      NoOlderJobs(shallow[1..]);
      assert OlderJobs(shallow[0]) == [];
    }
  }

  lemma EarlierJobsDistinct(repo: RepoKey, jobs: seq<FileJob>, first: seq<FileJob>)
    requires DistinctKeys(repo, jobs) && first <= jobs
    ensures DistinctKeys(repo, first)
    ensures forall j :: j in first ==> j in jobs
    ensures forall i, j :: i in jobs && j in first && Key(repo, i) == Key(repo, j) ==> i == j
  {
    forall i, j | i in jobs && j in first && Key(repo, i) == Key(repo, j) ensures i == j {
      var a :| 0 <= a < |jobs| && jobs[a] == i;
      var b :| 0 <= b < |first| && first[b] == j;
      assert jobs[b] == j;
    }
  }

  lemma SyncedFilesAlike(t: Tables, repo: RepoKey, shallow: seq<Chart>, full: seq<Chart>, f: FileKey)
    requires KeysHold(t) && Ids(shallow) == Ids(full)
    ensures Get(SyncTables(t, repo, shallow).files, f) == Get(SyncTables(t, repo, full).files, f)
  {
    SyncSetsFile(t, repo, shallow, f);
    SyncSetsFile(t, repo, full, f);
  }

  /** A row that is no business of the shallow pass is the same before the files of the full pass either way. */
  lemma NotInShallowPass(t: Tables, repo: RepoKey, fetch: Fetch, shallow: seq<Chart>, full: seq<Chart>, f: FileKey)
    requires KeysHold(t) && Ids(shallow) == Ids(full) && DistinctKeys(repo, FileJobs(shallow))
    requires forall j :: j in FileJobs(shallow) ==> Key(repo, j) != f
    ensures Get(SyncTables(Pass(t, repo, fetch, shallow), repo, full).files, f)
      == Get(SyncTables(t, repo, full).files, f)
  {
    var t1, t2 := SyncTables(t, repo, shallow), Pass(t, repo, fetch, shallow);
    ImportAllIsExact(repo, fetch, t1, FileJobs(shallow));
    assert Get(t2.files, f) == Get(t1.files, f);
    PassKeeps(t, repo, fetch, shallow);
    SyncSetsFile(t, repo, shallow, f);
    SyncSetsFile(t, repo, full, f);
    SyncSetsFile(t2, repo, full, f);
  }

  lemma SameChartKeys(t: Tables, repo: RepoKey, fetch: Fetch, shallow: seq<Chart>, full: seq<Chart>)
    requires KeysHold(t) && IsShallow(shallow, full)
    ensures var t1, u3, t3 := SyncTables(t, repo, shallow), SyncTables(t, repo, full),
                              SyncTables(Pass(t, repo, fetch, shallow), repo, full);
            t1.charts.Keys == u3.charts.Keys && t3.charts == u3.charts && t1.repos == u3.repos == t3.repos
  {
    ShallowJobs(shallow, full);
    var t2 := Pass(t, repo, fetch, shallow);
    PassKeeps(t, repo, fetch, shallow);
    var t1, u3, t3 := SyncTables(t, repo, shallow), SyncTables(t, repo, full), SyncTables(t2, repo, full);
    SyncSetsRepos(t, repo, shallow);
    SyncSetsRepos(t, repo, full);
    SyncSetsRepos(t2, repo, full);
    forall k: ChartKey
      ensures Get(t3.charts, k) == Get(u3.charts, k)
      ensures Get(t1.charts, k).Some? <==> Get(u3.charts, k).Some?
    {
      SyncSetsChart(t, repo, shallow, k);
      SyncSetsChart(t, repo, full, k);
      SyncSetsChart(t2, repo, full, k);
    }
    SameMap(t3.charts, u3.charts);
    forall k ensures k in t1.charts.Keys <==> k in u3.charts.Keys {
      assert Get(t1.charts, k).Some? <==> Get(u3.charts, k).Some?;
    }
  }

  /** A row the shallow pass leaves under one of its jobs is not removed by the full Sync. */
  lemma SurvivesFullSync(t: Tables, repo: RepoKey, fetch: Fetch, shallow: seq<Chart>, full: seq<Chart>, j: FileJob)
    requires KeysHold(t) && IsShallow(shallow, full) && DistinctKeys(repo, FileJobs(shallow)) && j in FileJobs(shallow)
    ensures var t2 := Pass(t, repo, fetch, shallow);
            Row(repo, SyncTables(t2, repo, full), j) == Row(repo, t2, j)
  {
    ShallowJobs(shallow, full);
    var t2 := Pass(t, repo, fetch, shallow);
    PassKeeps(t, repo, fetch, shallow);
    SyncSetsFile(t2, repo, full, Key(repo, j));
    if Key(repo, j) in t2.files && t2.files[Key(repo, j)].repo == repo {
      var k := ChartKey(repo, t2.files[Key(repo, j)].chartId);
      assert k in t2.charts;
      SyncIsExact(t, repo, shallow);
    }
  }

  /** A row that is the shallow pass's is, before the files of the full pass, what that pass would make of the row
      before them. */
  lemma InShallowPass(t: Tables, repo: RepoKey, fetch: Fetch, shallow: seq<Chart>, full: seq<Chart>, j: FileJob)
    requires KeysHold(t) && IsShallow(shallow, full) && DistinctKeys(repo, FileJobs(shallow)) && j in FileJobs(shallow)
    ensures var t3, u3 := SyncTables(Pass(t, repo, fetch, shallow), repo, full), SyncTables(t, repo, full);
            Row(repo, t3, j) == Row(repo, ImportOne(repo, fetch, u3, j), j)
  {
    ShallowJobs(shallow, full);
    var t1, u3 := SyncTables(t, repo, shallow), SyncTables(t, repo, full);
    ImportAllIsExact(repo, fetch, t1, FileJobs(shallow));
    assert Row(repo, Pass(t, repo, fetch, shallow), j) == Row(repo, ImportOne(repo, fetch, t1, j), j);
    SurvivesFullSync(t, repo, fetch, shallow, full, j);
    SyncedFilesAlike(t, repo, shallow, full, Key(repo, j));
    SameChartKeys(t, repo, fetch, shallow, full);
    ImportSeesOwnRow(repo, fetch, t1, u3, j);
  }

  /** What the first fetch brings does not show after the second: there is nothing to store, or the second brings the
      same, or the row is another repository's, which is never recognised and so written over. */
  ghost predicate FirstFetchHidden(repo: RepoKey, first: Fetch, fetch: Fetch, t: Tables, j: FileJob) {
    var digest, row := j.version.digest, Row(repo, t, j);
    || FilesExist(t, repo, FilesId(repo, j), digest)
    || first(j).None?
    || InsertFiles(t, repo, ChartId(repo, j.name), FilesId(repo, j), digest, first(j).value).None?
    || first(j) == fetch(j)
    || (row.Some? && row.value.repo != repo
        && (fetch(j).Some? || (row.value.digest == digest && row.value.content == first(j).value)))
  }

  lemma SecondImportHidesIff(repo: RepoKey, first: Fetch, fetch: Fetch, t: Tables, j: FileJob)
    ensures Row(repo, ImportOne(repo, fetch, ImportOne(repo, first, t, j), j), j)
            == Row(repo, ImportOne(repo, fetch, t, j), j)
       <==> FirstFetchHidden(repo, first, fetch, t, j)
  {
  }

  /** The files row under a key after both passes of a first-time run. */
  lemma RowAfterBothPasses(t: Tables, repo: RepoKey, first: Fetch, fetch: Fetch, shallow: seq<Chart>, full: seq<Chart>,
                           f: FileKey)
    requires KeysHold(t) && IsShallow(shallow, full) && DistinctKeys(repo, FileJobs(full))
    ensures var both, alone := Pass(Pass(t, repo, first, shallow), repo, fetch, full), Pass(t, repo, fetch, full);
            Get(both.files, f) == Get(alone.files, f) <==>
            forall j :: j in FileJobs(shallow) && Key(repo, j) == f ==>
              FirstFetchHidden(repo, first, fetch, SyncTables(t, repo, full), j)
  {
    ShallowJobs(shallow, full);
    var jobs, newest := FileJobs(full), FileJobs(shallow);
    EarlierJobsDistinct(repo, jobs, newest);
    var t3, u3 := SyncTables(Pass(t, repo, first, shallow), repo, full), SyncTables(t, repo, full);
    ImportAllIsExact(repo, fetch, t3, jobs);
    ImportAllIsExact(repo, fetch, u3, jobs);
    SameChartKeys(t, repo, first, shallow, full);
    if j :| j in jobs && Key(repo, j) == f {
      assert Get(ImportAll(repo, fetch, t3, jobs).files, f) == Row(repo, ImportOne(repo, fetch, t3, j), j);
      assert Get(ImportAll(repo, fetch, u3, jobs).files, f) == Row(repo, ImportOne(repo, fetch, u3, j), j);
      if j in newest {
        InShallowPass(t, repo, first, shallow, full, j);
        ImportIsLocal(repo, first, u3, j);
        ImportSeesOwnRow(repo, fetch, t3, ImportOne(repo, first, u3, j), j);
        SecondImportHidesIff(repo, first, fetch, u3, j);
      } else {
        NotInShallowPass(t, repo, first, shallow, full, f);
        ImportSeesOwnRow(repo, fetch, t3, u3, j);
      }
    } else {
      NotInShallowPass(t, repo, first, shallow, full, f);
    }
  }

  /** Every job of the shallow pass is fetched to no effect that shows after the full one. */
  ghost predicate ShallowHidden(t: Tables, repo: RepoKey, first: Fetch, fetch: Fetch, shallow: seq<Chart>,
                                full: seq<Chart>) {
    forall j :: j in FileJobs(shallow) ==> FirstFetchHidden(repo, first, fetch, SyncTables(t, repo, full), j)
  }

  lemma SameFilesIff(t: Tables, repo: RepoKey, first: Fetch, fetch: Fetch, shallow: seq<Chart>, full: seq<Chart>)
    requires KeysHold(t) && IsShallow(shallow, full) && DistinctKeys(repo, FileJobs(full))
    ensures Pass(Pass(t, repo, first, shallow), repo, fetch, full).files == Pass(t, repo, fetch, full).files
       <==> ShallowHidden(t, repo, first, fetch, shallow, full)
  {
    var both, alone := Pass(Pass(t, repo, first, shallow), repo, fetch, full), Pass(t, repo, fetch, full);
    forall f
      ensures Get(both.files, f) == Get(alone.files, f) <==>
              forall j :: j in FileJobs(shallow) && Key(repo, j) == f ==>
                FirstFetchHidden(repo, first, fetch, SyncTables(t, repo, full), j)
    {
      RowAfterBothPasses(t, repo, first, fetch, shallow, full, f);
    }
    if ShallowHidden(t, repo, first, fetch, shallow, full) {
      SameMap(both.files, alone.files);
    }
    if both.files == alone.files {
      forall j | j in FileJobs(shallow) ensures FirstFetchHidden(repo, first, fetch, SyncTables(t, repo, full), j) {
        assert Get(both.files, Key(repo, j)) == Get(alone.files, Key(repo, j));
      }
    }
  }

  /** For a first-time run the shallow pass followed by the full one leaves the same tables as the full pass alone
      exactly when for every newest version the row is there already, or the first fetch fails, or both bring the
      same; the shallow list is the full one with every chart cut to its first version. */
  lemma ShallowPassIsRedundantIff(t: Tables, repo: RepoKey, first: Fetch, fetch: Fetch, shallow: seq<Chart>,
                                  full: seq<Chart>)
    requires KeysHold(t) && IsShallow(shallow, full) && DistinctKeys(repo, FileJobs(full))
    ensures Pass(Pass(t, repo, first, shallow), repo, fetch, full) == Pass(t, repo, fetch, full)
       <==> ShallowHidden(t, repo, first, fetch, shallow, full)
    ensures Pass(Pass(t, repo, first, shallow), repo, fetch, full).charts == Pass(t, repo, fetch, full).charts
    ensures Pass(Pass(t, repo, first, shallow), repo, fetch, full).repos == Pass(t, repo, fetch, full).repos
  {
    var u := Pass(t, repo, first, shallow);
    PassKeeps(t, repo, first, shallow);
    PassKeeps(u, repo, fetch, full);
    PassKeeps(t, repo, fetch, full);
    SameChartKeys(t, repo, first, shallow, full);
    SameFilesIff(t, repo, first, fetch, shallow, full);
  }

  /** So a completed run leaves one full pass and the checksum exactly if it is not the first or its shallow pass
      does not show. */
  lemma CompletedIsOneFullPassIff(t: Tables, repo: RepoKey, src: Source, last: string)
    requires KeysHold(t) && CanComplete(src, last)
    requires last == "" ==> IsShallow(Charts(src, true).value, Charts(src, false).value)
    requires DistinctKeys(repo, FileJobs(Charts(src, false).value))
    ensures CompletedTables(t, repo, src, last)
            == SetChecksum(Pass(t, repo, src.fetch(false), Charts(src, false).value), repo, src.checksum.value, src.now)
       <==> last != ""
            || ShallowHidden(t, repo, src.fetch(true), src.fetch(false), Charts(src, true).value,
              Charts(src, false).value)
  {
    if last == "" {
      ShallowPassIsRedundantIff(t, repo, src.fetch(true), src.fetch(false), Charts(src, true).value,
        Charts(src, false).value);
    }
  }

  lemma DigestAfterShallowIff(t: Tables, repo: RepoKey, first: Fetch, shallow: seq<Chart>, full: seq<Chart>, j: FileJob)
    requires KeysHold(t) && IsShallow(shallow, full) && WellIdentified(repo, full)
    requires DistinctKeys(repo, FileJobs(full)) && j in FileJobs(full)
    ensures HasDigest(repo, SyncTables(Pass(t, repo, first, shallow), repo, full), j)
       <==> (j in FileJobs(shallow) && first(j).Some?) || HasDigest(repo, SyncTables(t, repo, full), j)
  {
    ShallowJobs(shallow, full);
    EarlierJobsDistinct(repo, FileJobs(full), FileJobs(shallow));
    var t3, u3 := SyncTables(Pass(t, repo, first, shallow), repo, full), SyncTables(t, repo, full);
    if j in FileJobs(shallow) {
      InShallowPass(t, repo, first, shallow, full, j);
      if first(j).Some? {
        NoForeignKeyError(t, repo, full, u3, j, first(j).value);
      }
      ImportOneHasDigestIff(repo, first, u3, j);
      assert Row(repo, t3, j) == Row(repo, ImportOne(repo, first, u3, j), j);
    } else {
      forall i | i in FileJobs(shallow) ensures Key(repo, i) != Key(repo, j) {
      }
      NotInShallowPass(t, repo, first, shallow, full, Key(repo, j));
      assert Get(t3.files, Key(repo, j)) == Get(u3.files, Key(repo, j));
    }
  }

  lemma FirstPassDigestIff(t: Tables, repo: RepoKey, src: Source, last: string, full: seq<Chart>, j: FileJob)
    requires KeysHold(t) && (last == "" ==> HasCharts(src, true) && IsShallow(Charts(src, true).value, full))
    requires WellIdentified(repo, full) && DistinctKeys(repo, FileJobs(full)) && j in FileJobs(full)
    ensures var u := FirstPass(t, repo, src, last);
            && KeysHold(u)
            && (HasDigest(repo, SyncTables(u, repo, full), j) <==>
                  || (last == "" && j in FileJobs(Charts(src, true).value) && src.fetch(true)(j).Some?)
                  || HasDigest(repo, SyncTables(t, repo, full), j))
  {
    if last == "" {
      PassKeeps(t, repo, src.fetch(true), Charts(src, true).value);
      DigestAfterShallowIff(t, repo, src.fetch(true), Charts(src, true).value, full, j);
    }
  }

  /** Whichever fetches fail, a completed run stores the checksum, and a version's row carries its digest afterwards
      exactly if the version was fetched, in the full pass or as a newest version in a shallow one, or its row was there
      before.  What is missing then stays missing: a later run with this checksum skips. */
  lemma FailedFetchSticksIff(t: Tables, repo: RepoKey, src: Source, last: string, j: FileJob)
    requires KeysHold(t) && CanComplete(src, last)
    requires last == "" ==> IsShallow(Charts(src, true).value, Charts(src, false).value)
    requires WellIdentified(repo, Charts(src, false).value) && DistinctKeys(repo, FileJobs(Charts(src, false).value))
    requires j in FileJobs(Charts(src, false).value)
    ensures var r := CompletedTables(t, repo, src, last);
            && src.checksum == Some(LastChecksum(r, repo))
            && (HasDigest(repo, r, j) <==>
                  || src.fetch(false)(j).Some?
                  || (last == "" && j in FileJobs(Charts(src, true).value) && src.fetch(true)(j).Some?)
                  || HasDigest(repo, SyncTables(t, repo, Charts(src, false).value), j))
  {
    var full, u := Charts(src, false).value, FirstPass(t, repo, src, last);
    FirstPassDigestIff(t, repo, src, last, full, j);
    HasDigestIff(u, repo, src.fetch(false), full, j);
    assert CompletedTables(t, repo, src, last).files == Pass(u, repo, src.fetch(false), full).files;
  }
}
