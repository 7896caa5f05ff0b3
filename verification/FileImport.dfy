/** fetchFiles: a pool that first drains the icons and then imports the files of every chart version, newest
    versions first, while its workers read and write the files table. */
module FileImport {
  import opened Wrappers
  import opened Sequences
  import opened Text
  import opened Catalogue

  datatype FileJob = FileJob(name: string, version: ChartVersion)

  function ChartId(repo: RepoKey, name: string): string {
    repo.name + "/" + name
  }

  function FilesId(repo: RepoKey, job: FileJob): string {
    ChartId(repo, job.name) + "-" + job.version.version
  }

  function Key(repo: RepoKey, job: FileJob): FileKey {
    FileKey(repo.namespace, FilesId(repo, job))
  }

  /** The producer takes element 0 of every chart's versions. */
  ghost predicate HaveVersions(charts: seq<Chart>) {
    forall c :: c in charts ==> c.versions != []
  }

  function Jobs(c: Chart): seq<FileJob> {
    Map(v => FileJob(c.name, v), c.versions)
  }

  function NewestJob(c: Chart): seq<FileJob> {
    if c.versions == [] then [] else [FileJob(c.name, c.versions[0])]
  }

  function OlderJobs(c: Chart): seq<FileJob> {
    if c.versions == [] then [] else Map(v => FileJob(c.name, v), c.versions[1..])
  }

  /** The jobs in the order they are queued: every latest version, then all older ones. */
  function FileJobs(charts: seq<Chart>): seq<FileJob> {
    FlatMap(NewestJob, charts) + FlatMap(OlderJobs, charts)
  }

  ghost predicate DistinctKeys(repo: RepoKey, jobs: seq<FileJob>) {
    forall i, j :: 0 <= i < j < |jobs| ==> Key(repo, jobs[i]) != Key(repo, jobs[j])
  }

  /** What the outside world does for a pass: the files fetched for a job, None if that or storing them fails. */
  type Fetch = FileJob -> Option<Content>

  // ----- fetchAndImportFiles, one job -----

  function Store(repo: RepoKey, t: Tables, job: FileJob, content: Content): Tables {
    match InsertFiles(t, repo, ChartId(repo, job.name), FilesId(repo, job), job.version.digest, content)
    case Some(stored) => stored
    case None => t
  }

  function ImportOne(repo: RepoKey, fetch: Fetch, t: Tables, job: FileJob): Tables {
    if FilesExist(t, repo, FilesId(repo, job), job.version.digest) then t
    else match fetch(job) case None => t case Some(content) => Store(repo, t, job, content)
  }

  /** The sequential import of a list of jobs. */
  function ImportAll(repo: RepoKey, fetch: Fetch, t: Tables, jobs: seq<FileJob>): Tables {
    if jobs == [] then t
    else ImportOne(repo, fetch, ImportAll(repo, fetch, t, jobs[..|jobs| - 1]), jobs[|jobs| - 1])
  }

  function Row(repo: RepoKey, t: Tables, job: FileJob): Option<FileRow> {
    Get(t.files, Key(repo, job))
  }

  /** The same repos and charts, and a files table that differs under one key at most. */
  ghost predicate DiffersAt(t: Tables, r: Tables, key: FileKey) {
    r.repos == t.repos && r.charts == t.charts && forall f :: f != key ==> Get(r.files, f) == Get(t.files, f)
  }

  lemma ImportIsLocal(repo: RepoKey, fetch: Fetch, t: Tables, job: FileJob)
    ensures DiffersAt(t, ImportOne(repo, fetch, t, job), Key(repo, job))
  {
  }

  /** What a job does to its row depends on that row and on which charts there are. */
  lemma ImportSeesOwnRow(repo: RepoKey, fetch: Fetch, t: Tables, u: Tables, job: FileJob)
    requires t.repos == u.repos && t.charts.Keys == u.charts.Keys && Row(repo, t, job) == Row(repo, u, job)
    ensures Row(repo, ImportOne(repo, fetch, t, job), job) == Row(repo, ImportOne(repo, fetch, u, job), job)
    ensures FilesExist(t, repo, FilesId(repo, job), job.version.digest)
       <==> FilesExist(u, repo, FilesId(repo, job), job.version.digest)
  {
  }

  lemma ImportTwice(repo: RepoKey, fetch: Fetch, t: Tables, job: FileJob)
    ensures Row(repo, ImportOne(repo, fetch, ImportOne(repo, fetch, t, job), job), job)
      == Row(repo, ImportOne(repo, fetch, t, job), job)
  {
  }

  /** The tables in which each of the jobs has had its effect on its own row, and nothing else has changed. */
  ghost predicate ImportedExactly(repo: RepoKey, fetch: Fetch, t: Tables, jobs: seq<FileJob>, r: Tables) {
    && r.repos == t.repos && r.charts == t.charts
    && (forall j :: j in jobs ==> Row(repo, r, j) == Row(repo, ImportOne(repo, fetch, t, j), j))
    && (forall f :: (forall j :: j in jobs ==> Key(repo, j) != f) ==> Get(r.files, f) == Get(t.files, f))
  }

  lemma ImportedExactlyUnique(repo: RepoKey, fetch: Fetch, t: Tables, jobs: seq<FileJob>, r: Tables, r': Tables)
    requires ImportedExactly(repo, fetch, t, jobs, r) && ImportedExactly(repo, fetch, t, jobs, r')
    ensures r == r'
  {
    forall f ensures Get(r.files, f) == Get(r'.files, f) {
      if j :| j in jobs && Key(repo, j) == f {
        assert Row(repo, r, j) == Row(repo, r', j);
      }
    }
    SameMap(r.files, r'.files);
  }

  lemma NewKeyAfter(repo: RepoKey, jobs: seq<FileJob>)
    requires jobs != [] && DistinctKeys(repo, jobs)
    ensures forall j :: j in jobs[..|jobs| - 1] ==> Key(repo, j) != Key(repo, jobs[|jobs| - 1])
  {
    var init := jobs[..|jobs| - 1];
    forall j | j in init ensures Key(repo, j) != Key(repo, jobs[|jobs| - 1]) {
      var i :| 0 <= i < |init| && init[i] == j;
      assert jobs[i] == j;
    }
  }

  lemma {:induction false} ImportAllIsExact(repo: RepoKey, fetch: Fetch, t: Tables, jobs: seq<FileJob>)
    requires DistinctKeys(repo, jobs)
    ensures ImportedExactly(repo, fetch, t, jobs, ImportAll(repo, fetch, t, jobs))
  {
    if jobs != [] {
      var init, last := jobs[..|jobs| - 1], jobs[|jobs| - 1];
      var u, r := ImportAll(repo, fetch, t, init), ImportAll(repo, fetch, t, jobs);
      ImportAllIsExact(repo, fetch, t, init);
      assert jobs == init + [last];
      ImportIsLocal(repo, fetch, u, last);
      NewKeyAfter(repo, jobs);
      assert Row(repo, u, last) == Row(repo, t, last);
      ImportSeesOwnRow(repo, fetch, u, t, last);
      forall j | j in jobs ensures Row(repo, r, j) == Row(repo, ImportOne(repo, fetch, t, j), j) {
        if j in init {
          assert Row(repo, r, j) == Row(repo, u, j);
        }
      }
      forall f | forall j :: j in jobs ==> Key(repo, j) != f ensures Get(r.files, f) == Get(t.files, f) {
        assert last in jobs;
        assert forall j :: j in init ==> j in jobs;
      }
    }
  }

  // ----- Which jobs there are -----

  /** One job for every version of every chart. */
  lemma JobPerVersion(charts: seq<Chart>, j: FileJob)
    ensures j in FileJobs(charts) <==> exists c :: c in charts && c.name == j.name && j.version in c.versions
  {
    InFlatMap(NewestJob, charts, j);
    InFlatMap(OlderJobs, charts, j);
    forall c: Chart
      ensures j in NewestJob(c) || j in OlderJobs(c) <==> c.name == j.name && j.version in c.versions
    {
      JobsOfChart(c, j);
    }
  }

  lemma JobsOfChart(c: Chart, j: FileJob)
    ensures j in NewestJob(c) || j in OlderJobs(c) <==> c.name == j.name && j.version in c.versions
  {
    if c.versions != [] {
      var older := c.versions[1..];
      assert c.versions == [c.versions[0]] + older;
      if c.name == j.name && j.version in older {
        var i :| 0 <= i < |older| && older[i] == j.version;
        assert OlderJobs(c)[i] == j;
      }
    }
  }

  /** The jobs are one for each version listed, and the newest version of every chart, which is its first, comes before
      any other. */
  lemma NewestVersionsFirst(charts: seq<Chart>)
    requires HaveVersions(charts)
    ensures |FileJobs(charts)| >= |charts|
    ensures forall k :: 0 <= k < |charts| ==> FileJobs(charts)[k] == FileJob(charts[k].name, charts[k].versions[0])
    ensures multiset(FileJobs(charts))
            == multiset(FlatMap((c: Chart) => Map((v: ChartVersion) => FileJob(c.name, v), c.versions), charts))
  {
    NewestInOrder(charts);
    JobsRegrouped(charts);
    FlatMapSame(Jobs, (c: Chart) => Map((v: ChartVersion) => FileJob(c.name, v), c.versions), charts);
  }

  lemma {:induction false} NewestInOrder(charts: seq<Chart>)
    requires HaveVersions(charts)
    ensures |FlatMap(NewestJob, charts)| == |charts|
    ensures forall k :: 0 <= k < |charts| ==>
      FlatMap(NewestJob, charts)[k] == FileJob(charts[k].name, charts[k].versions[0])
  {
    if charts != [] {
      NewestInOrder(charts[1..]);
      assert forall k :: 0 < k < |charts| ==> charts[k] == charts[1..][k - 1];
    }
  }

  lemma {:induction false} JobsRegrouped(charts: seq<Chart>)
    ensures multiset(FileJobs(charts)) == multiset(FlatMap(Jobs, charts))
  {
    if charts != [] {
      JobsRegrouped(charts[1..]);
      var c := charts[0];
      assert Jobs(c) == NewestJob(c) + OlderJobs(c);
    }
  }

  // ----- Sync and import together -----

  ghost predicate WellIdentified(repo: RepoKey, charts: seq<Chart>) {
    forall c :: c in charts ==> c.id == ChartId(repo, c.name)
  }

  /** After a Sync of the list no insert of the import can break the foreign key to charts. */
  lemma NoForeignKeyError(t: Tables, repo: RepoKey, charts: seq<Chart>, u: Tables, j: FileJob, content: Content)
    requires KeysHold(t) && WellIdentified(repo, charts) && j in FileJobs(charts)
    requires u.repos == SyncTables(t, repo, charts).repos && u.charts == SyncTables(t, repo, charts).charts
    ensures InsertFiles(u, repo, ChartId(repo, j.name), FilesId(repo, j), j.version.digest, content).Some?
  {
    JobPerVersion(charts, j);
    var c :| c in charts && c.name == j.name;
    assert c.id in Ids(charts);
    SyncIsExact(t, repo, charts);
  }

  /** A row found with the job's id and digest holds what a fetch would bring. */
  ghost predicate Trusted(repo: RepoKey, fetch: Fetch, t: Tables, j: FileJob) {
    FilesExist(t, repo, FilesId(repo, j), j.version.digest) ==>
      fetch(j).Some? && t.files[Key(repo, j)].content == fetch(j).value
  }

  /** A row already under the job's key is that of the same chart. */
  ghost predicate Owned(repo: RepoKey, t: Tables, j: FileJob) {
    Key(repo, j) in t.files ==>
      t.files[Key(repo, j)].repo == repo && t.files[Key(repo, j)].chartId == ChartId(repo, j.name)
  }

  lemma {:induction false} ImportKeepsKeys(repo: RepoKey, fetch: Fetch, t: Tables, jobs: seq<FileJob>)
    requires KeysHold(t)
    ensures KeysHold(ImportAll(repo, fetch, t, jobs))
  {
    if jobs != [] {
      var last := jobs[|jobs| - 1];
      var u := ImportAll(repo, fetch, t, jobs[..|jobs| - 1]);
      ImportKeepsKeys(repo, fetch, t, jobs[..|jobs| - 1]);
      if fetch(last).Some? {
        InsertKeepsKeys(u, repo, ChartId(repo, last.name), FilesId(repo, last), last.version.digest, fetch(last).value);
      }
    }
  }

  /** The row under the job's key carries the job's digest and this content; `owned` adds that it is the chart's. */
  ghost predicate HasFiles(repo: RepoKey, r: Tables, j: FileJob, content: Content, owned: bool) {
    && Key(repo, j) in r.files
    && r.files[Key(repo, j)].digest == j.version.digest
    && r.files[Key(repo, j)].content == content
    && (owned ==> r.files[Key(repo, j)].repo == repo && r.files[Key(repo, j)].chartId == ChartId(repo, j.name))
  }

  lemma ImportedHasFiles(repo: RepoKey, fetch: Fetch, t: Tables, j: FileJob)
    requires fetch(j).Some? && Trusted(repo, fetch, t, j)
    requires InsertFiles(t, repo, ChartId(repo, j.name), FilesId(repo, j), j.version.digest, fetch(j).value).Some?
    ensures HasFiles(repo, ImportOne(repo, fetch, t, j), j, fetch(j).value, Owned(repo, t, j))
  {
  }

  lemma HasFilesByRow(repo: RepoKey, r: Tables, u: Tables, j: FileJob, content: Content, owned: bool)
    requires HasFiles(repo, u, j, content, owned) && Row(repo, r, j) == Row(repo, u, j)
    ensures HasFiles(repo, r, j, content, owned)
  {
    assert Get(r.files, Key(repo, j)) == Get(u.files, Key(repo, j));
  }

  /** The row under the job's key carries the job's digest. */
  ghost predicate HasDigest(repo: RepoKey, t: Tables, j: FileJob) {
    Key(repo, j) in t.files && t.files[Key(repo, j)].digest == j.version.digest
  }

  lemma ImportOneHasDigestIff(repo: RepoKey, fetch: Fetch, t: Tables, j: FileJob)
    requires fetch(j).Some? ==>
      InsertFiles(t, repo, ChartId(repo, j.name), FilesId(repo, j), j.version.digest, fetch(j).value).Some?
    ensures HasDigest(repo, ImportOne(repo, fetch, t, j), j) <==> fetch(j).Some? || HasDigest(repo, t, j)
  {
    if fetch(j).Some? && !FilesExist(t, repo, FilesId(repo, j), j.version.digest) {
      var stored := Store(repo, t, j, fetch(j).value);
      assert Key(repo, j) in stored.files;
    }
  }

  /** After a Sync and an import, whichever fetches fail: a version's row carries its digest exactly if the version was
      fetched or its row carried the digest before. */
  lemma HasDigestIff(t: Tables, repo: RepoKey, fetch: Fetch, charts: seq<Chart>, j: FileJob)
    requires KeysHold(t) && WellIdentified(repo, charts) && DistinctKeys(repo, FileJobs(charts))
      && j in FileJobs(charts)
    ensures var synced := SyncTables(t, repo, charts);
            HasDigest(repo, ImportAll(repo, fetch, synced, FileJobs(charts)), j)
            <==> fetch(j).Some? || HasDigest(repo, synced, j)
  {
    var synced := SyncTables(t, repo, charts);
    var r := ImportAll(repo, fetch, synced, FileJobs(charts));
    ImportAllIsExact(repo, fetch, synced, FileJobs(charts));
    if fetch(j).Some? {
      NoForeignKeyError(t, repo, charts, synced, j, fetch(j).value);
    }
    ImportOneHasDigestIff(repo, fetch, synced, j);
    assert Row(repo, r, j) == Row(repo, ImportOne(repo, fetch, synced, j), j);
  }

  /** After a Sync and an import without fetch errors every version of every chart has its file row, with its
      digest and the fetched content, and the row belongs to that chart unless an older row of another chart
      already sat under the same id. */
  lemma EveryVersionHasItsFiles(t: Tables, repo: RepoKey, fetch: Fetch, charts: seq<Chart>)
    requires KeysHold(t) && WellIdentified(repo, charts) && DistinctKeys(repo, FileJobs(charts))
    requires forall j :: j in FileJobs(charts) ==>
      fetch(j).Some? && Trusted(repo, fetch, SyncTables(t, repo, charts), j)
    ensures var synced := SyncTables(t, repo, charts);
            var r := ImportAll(repo, fetch, synced, FileJobs(charts));
            && KeysHold(r) && r.charts == synced.charts && r.repos == synced.repos
            && forall j :: j in FileJobs(charts) ==> HasFiles(repo, r, j, fetch(j).value, Owned(repo, synced, j))
  {
    var synced := SyncTables(t, repo, charts);
    var r := ImportAll(repo, fetch, synced, FileJobs(charts));
    assert KeysHold(synced) by { SyncIsExact(t, repo, charts); }
    ImportKeepsKeys(repo, fetch, synced, FileJobs(charts));
    ImportAllIsExact(repo, fetch, synced, FileJobs(charts));
    forall j | j in FileJobs(charts) ensures HasFiles(repo, r, j, fetch(j).value, Owned(repo, synced, j)) {
      NoForeignKeyError(t, repo, charts, synced, j, fetch(j).value);
      ImportedHasFiles(repo, fetch, synced, j);
      HasFilesByRow(repo, r, ImportOne(repo, fetch, synced, j), j, fetch(j).value, Owned(repo, synced, j));
    }
  }

  /** Import without looking for an existing row. */
  function StoreOne(repo: RepoKey, fetch: Fetch, t: Tables, job: FileJob): Tables {
    match fetch(job) case None => t case Some(content) => Store(repo, t, job, content)
  }

  function StoreAll(repo: RepoKey, fetch: Fetch, t: Tables, jobs: seq<FileJob>): Tables {
    if jobs == [] then t
    else StoreOne(repo, fetch, StoreAll(repo, fetch, t, jobs[..|jobs| - 1]), jobs[|jobs| - 1])
  }

  /** Storing what a recognised row already holds changes nothing. */
  lemma StoreTrusted(repo: RepoKey, fetch: Fetch, t: Tables, j: FileJob)
    requires Trusted(repo, fetch, t, j)
    ensures StoreOne(repo, fetch, t, j) == ImportOne(repo, fetch, t, j)
  {
    if FilesExist(t, repo, FilesId(repo, j), j.version.digest) {
      var key := Key(repo, j);
      assert t.files[key := t.files[key]] == t.files;
    }
  }

  /** Skipping a job on a matching digest never changes the outcome. */
  lemma {:induction false} SkippingIsHarmless(repo: RepoKey, fetch: Fetch, t: Tables, jobs: seq<FileJob>)
    requires DistinctKeys(repo, jobs) && forall j :: j in jobs ==> Trusted(repo, fetch, t, j)
    ensures ImportAll(repo, fetch, t, jobs) == StoreAll(repo, fetch, t, jobs)
  {
    if jobs != [] {
      var init, last := jobs[..|jobs| - 1], jobs[|jobs| - 1];
      assert jobs == init + [last];
      SkippingIsHarmless(repo, fetch, t, init);
      ImportAllIsExact(repo, fetch, t, init);
      NewKeyAfter(repo, jobs);
      var u := ImportAll(repo, fetch, t, init);
      assert Row(repo, u, last) == Row(repo, t, last) && last in jobs;
      StoreTrusted(repo, fetch, u, last);
    }
  }

  // ----- The file ids -----

  /** Where a repository's rows are: its name, up to the first slash, starts the id. */
  predicate IsKeyOf(repo: RepoKey, f: FileKey) {
    f.namespace == repo.namespace && repo.name + "/" <= f.filesId
  }

  lemma KeyTellsRepo(a: RepoKey, b: RepoKey, f: FileKey)
    requires '/' !in a.name && '/' !in b.name && IsKeyOf(a, f) && IsKeyOf(b, f)
    ensures a == b
  {
    var s, t := f.filesId[|a.name| + 1..], f.filesId[|b.name| + 1..];
    assert f.filesId == a.name + ['/'] + s && f.filesId == b.name + ['/'] + t;
    FirstMark('/', a.name, s, b.name, t);
  }

  /** Two repositories whose names hold no slash never share a file id. */
  lemma ReposShareNoFilesId(a: RepoKey, b: RepoKey, i: FileJob, j: FileJob)
    requires '/' !in a.name && '/' !in b.name && Key(a, i) == Key(b, j)
    ensures a == b
  {
    KeyTellsRepo(a, b, Key(a, i));
  }

  /** Every row of the files table is where its repository's rows are. */
  ghost predicate FilesInPlace(t: Tables) {
    forall f :: f in t.files ==> '/' !in t.files[f].repo.name && IsKeyOf(t.files[f].repo, f)
  }

  /** The file rows of all other repositories are the same ones. */
  ghost predicate OtherFilesKept(t: Tables, r: Tables, repo: RepoKey) {
    && (forall f :: f in t.files && t.files[f].repo != repo ==> f in r.files && r.files[f] == t.files[f])
    && (forall f :: f in r.files && r.files[f].repo != repo ==> f in t.files && t.files[f] == r.files[f])
  }

  lemma StoreKeepsOthers(repo: RepoKey, t: Tables, job: FileJob, content: Content)
    requires FilesInPlace(t) && '/' !in repo.name
    ensures FilesInPlace(Store(repo, t, job, content)) && OtherFilesKept(t, Store(repo, t, job, content), repo)
  {
    var f := Key(repo, job);
    if f in t.files {
      KeyTellsRepo(repo, t.files[f].repo, f);
    }
  }

  lemma {:induction false} ImportKeepsOthers(repo: RepoKey, fetch: Fetch, t: Tables, jobs: seq<FileJob>)
    requires FilesInPlace(t) && '/' !in repo.name
    ensures FilesInPlace(ImportAll(repo, fetch, t, jobs)) && OtherFilesKept(t, ImportAll(repo, fetch, t, jobs), repo)
  {
    if jobs != [] {
      var last := jobs[|jobs| - 1];
      ImportKeepsOthers(repo, fetch, t, jobs[..|jobs| - 1]);
      if fetch(last).Some? {
        StoreKeepsOthers(repo, ImportAll(repo, fetch, t, jobs[..|jobs| - 1]), last, fetch(last).value);
      }
    }
  }

  lemma SyncKeepsOtherFiles(t: Tables, repo: RepoKey, charts: seq<Chart>)
    requires KeysHold(t) && FilesInPlace(t)
    ensures FilesInPlace(SyncTables(t, repo, charts)) && OtherFilesKept(t, SyncTables(t, repo, charts), repo)
  {
    SyncIsExact(t, repo, charts);
  }

  /** The files fetched for a version that has no row yet are stored under `repo/chart-version`, with the version's
      digest, for the chart `repo/chart`. */
  lemma NewRowIsStored(t: Tables, repo: RepoKey, fetch: Fetch, charts: seq<Chart>, c: Chart, v: ChartVersion)
    requires KeysHold(t) && DistinctKeys(repo, FileJobs(charts)) && c in charts && v in c.versions
    requires forall d :: d in charts ==> d.id == repo.name + "/" + d.name
    requires fetch(FileJob(c.name, v)).Some?
    requires var key := FileKey(repo.namespace, repo.name + "/" + c.name + "-" + v.version); key !in t.files
    ensures var key := FileKey(repo.namespace, repo.name + "/" + c.name + "-" + v.version);
            Get(ImportAll(repo, fetch, SyncTables(t, repo, charts), FileJobs(charts)).files, key)
            == Some(FileRow(repo, repo.name + "/" + c.name, v.digest, fetch(FileJob(c.name, v)).value))
  {
    var synced, j := SyncTables(t, repo, charts), FileJob(c.name, v);
    JobPerVersion(charts, j);
    SyncIsExact(t, repo, charts);
    NoForeignKeyError(t, repo, charts, synced, j, fetch(j).value);
    ImportAllIsExact(repo, fetch, synced, FileJobs(charts));
    assert Row(repo, ImportAll(repo, fetch, synced, FileJobs(charts)), j)
      == Row(repo, ImportOne(repo, fetch, synced, j), j);
  }

  /** A version that has a row keeps it if the digest is the version's, whatever would be fetched; otherwise what is
      fetched replaces digest and files. */
  lemma OldRowIsKeptOrReplaced(t: Tables, repo: RepoKey, fetch: Fetch, charts: seq<Chart>, c: Chart, v: ChartVersion)
    requires KeysHold(t) && DistinctKeys(repo, FileJobs(charts)) && c in charts && v in c.versions
    requires forall d :: d in charts ==> d.id == repo.name + "/" + d.name
    requires var key := FileKey(repo.namespace, repo.name + "/" + c.name + "-" + v.version);
             key in t.files && t.files[key].repo == repo && t.files[key].chartId == repo.name + "/" + c.name
    ensures var key := FileKey(repo.namespace, repo.name + "/" + c.name + "-" + v.version);
            var row, fetched := t.files[key], fetch(FileJob(c.name, v));
            Get(ImportAll(repo, fetch, SyncTables(t, repo, charts), FileJobs(charts)).files, key)
            == Some(if row.digest == v.digest || fetched.None? then row
                    else row.(digest := v.digest, content := fetched.value))
  {
    var synced, j := SyncTables(t, repo, charts), FileJob(c.name, v);
    JobPerVersion(charts, j);
    SyncIsExact(t, repo, charts);
    ImportAllIsExact(repo, fetch, synced, FileJobs(charts));
    assert Row(repo, ImportAll(repo, fetch, synced, FileJobs(charts)), j)
      == Row(repo, ImportOne(repo, fetch, synced, j), j);
    assert c.id in Ids(charts);
    if fetch(j).Some? {
      NoForeignKeyError(t, repo, charts, synced, j, fetch(j).value);
    }
  }

  lemma DashIn(a: string, v: string, b: string, w: string)
    requires a + "-" + v == b + "-" + w && |a| < |b|
    ensures b == a + "-" + b[|a| + 1..] && v == b[|a| + 1..] + "-" + w
  {
    var x, y, n := a + "-" + v, b + "-" + w, |a|;
    assert x[..n] == a && x[n] == '-' && x[n + 1..] == v;
    assert y[..n] == b[..n] && y[n] == b[n] && y[n + 1..] == b[n + 1..] + "-" + w;
    assert b == b[..n] + [b[n]] + b[n + 1..];
  }

  lemma SameDash(a: string, v: string, b: string, w: string)
    requires a + "-" + v == b + "-" + w && |a| == |b|
    ensures a == b && v == w
  {
    var x, y, n := a + "-" + v, b + "-" + w, |a|;
    assert x[..n] == a && x[n + 1..] == v && y[..n] == b && y[n + 1..] == w;
  }

  /** Two jobs of one repository share a file id exactly when they agree on name and version, or when moving
      some text ending the one name, after a dash, to the front of its version, before a dash, gives the other. */
  lemma SameFilesId(repo: RepoKey, i: FileJob, j: FileJob)
    requires |i.name| <= |j.name|
    ensures FilesId(repo, i) == FilesId(repo, j) <==>
            (i.name == j.name && i.version.version == j.version.version)
            || exists moved: string ::
                 j.name == i.name + "-" + moved && i.version.version == moved + "-" + j.version.version
  {
    var x, y := i.name + "-" + i.version.version, j.name + "-" + j.version.version;
    assert FilesId(repo, i) == repo.name + "/" + x && FilesId(repo, j) == repo.name + "/" + y;
    SamePrefix(repo.name + "/", x, y);
    if x == y {
      if |i.name| == |j.name| {
        SameDash(i.name, i.version.version, j.name, j.version.version);
      } else {
        DashIn(i.name, i.version.version, j.name, j.version.version);
      }
    }
    if moved: string :| j.name == i.name + "-" + moved && i.version.version == moved + "-" + j.version.version {
      assert x == y;
    }
  }

  lemma ImportTwo(repo: RepoKey, fetch: Fetch, t: Tables, i: FileJob, j: FileJob)
    ensures ImportAll(repo, fetch, t, [i, j]) == ImportOne(repo, fetch, ImportOne(repo, fetch, t, i), j)
  {
    assert [i, j][..1] == [i] && [i][..0] == [];
    assert ImportAll(repo, fetch, t, [i]) == ImportOne(repo, fetch, ImportAll(repo, fetch, t, [i][..0]), i);
  }

  // What is under a free key after two jobs that share it: the first one's row, with the second one's files unless the
  // digests agree.
  lemma RowAfterTwo(repo: RepoKey, fetch: Fetch, t: Tables, i: FileJob, j: FileJob)
    requires Key(repo, i) == Key(repo, j) && Key(repo, i) !in t.files && fetch(i).Some? && fetch(j).Some?
    requires repo in t.repos && ChartKey(repo, ChartId(repo, i.name)) in t.charts
    ensures DiffersAt(t, ImportAll(repo, fetch, t, [i, j]), Key(repo, i))
    ensures Row(repo, ImportAll(repo, fetch, t, [i, j]), i) ==
            Some(FileRow(repo, ChartId(repo, i.name), j.version.digest,
                         if i.version.digest == j.version.digest then fetch(i).value else fetch(j).value))
  {
    ImportTwo(repo, fetch, t, i, j);
  }

  /** Two jobs that share a free id leave the same tables in either order exactly when they are of one chart, with the
      same digest and the same files; in every other case the order of the imports shows. */
  lemma SharedIdOrderShowsIff(repo: RepoKey, fetch: Fetch, t: Tables, i: FileJob, j: FileJob)
    requires Key(repo, i) == Key(repo, j) && Key(repo, i) !in t.files && fetch(i).Some? && fetch(j).Some?
    requires repo in t.repos && ChartKey(repo, ChartId(repo, i.name)) in t.charts
    requires ChartKey(repo, ChartId(repo, j.name)) in t.charts
    ensures ImportAll(repo, fetch, t, [i, j]) == ImportAll(repo, fetch, t, [j, i]) <==>
            i.name == j.name && i.version.digest == j.version.digest && fetch(i) == fetch(j)
  {
    RowAfterTwo(repo, fetch, t, i, j);
    RowAfterTwo(repo, fetch, t, j, i);
    var ij, ji := ImportAll(repo, fetch, t, [i, j]), ImportAll(repo, fetch, t, [j, i]);
    var p := repo.name + "/";
    assert ChartId(repo, i.name)[|p|..] == i.name && ChartId(repo, j.name)[|p|..] == j.name;
    if Row(repo, ij, i) == Row(repo, ji, i) {
      forall f ensures Get(ij.files, f) == Get(ji.files, f) {
      }
      SameMap(ij.files, ji.files);
    }
  }
}
