/** The repos, charts and files tables and the statements the asset syncer runs against them.  A Tables value
    is a database state; the class at the end is the manager that changes it. */
module Catalogue {
  import opened Wrappers

  datatype RepoKey = RepoKey(namespace: string, name: string)
  datatype RepoRow = RepoRow(checksum: Option<string>, lastUpdate: Option<string>)

  datatype ChartVersion = ChartVersion(version: string, digest: string)
  datatype Chart = Chart(id: string, name: string, details: string, versions: seq<ChartVersion>)
  datatype ChartKey = ChartKey(repo: RepoKey, id: string)

  // The unique key of the files table leaves out the name of the repository.
  datatype FileKey = FileKey(namespace: string, filesId: string)
  datatype Content = Content(readme: string, values: string, schema: string)
  datatype FileRow = FileRow(repo: RepoKey, chartId: string, digest: string, content: Content)

  datatype Tables = Tables(
    repos: map<RepoKey, RepoRow>,
    charts: map<ChartKey, Chart>,
    files: map<FileKey, FileRow>)

  /** The foreign keys; the unique keys hold because the tables are maps. */
  ghost predicate KeysHold(t: Tables) {
    && (forall k :: k in t.charts ==> k.repo in t.repos)
    && (forall f :: f in t.files ==>
          f.namespace == t.files[f].repo.namespace
          && t.files[f].repo in t.repos
          && ChartKey(t.files[f].repo, t.files[f].chartId) in t.charts)
  }

  function Get<K, V>(m: map<K, V>, k: K): Option<V> {
    if k in m then Some(m[k]) else None
  }

  lemma SameMap<K(!new), V>(m: map<K, V>, n: map<K, V>)
    requires forall k :: Get(m, k) == Get(n, k)
    ensures m == n
  {
    forall k ensures k in m <==> k in n {
      assert Get(m, k) == Get(n, k);
    }
    forall k | k in m ensures m[k] == n[k] {
      assert Get(m, k) == Get(n, k);
    }
  }

  // ----- Statements -----

  function EnsureRepo(t: Tables, repo: RepoKey): Tables {
    if repo in t.repos then t else t.(repos := t.repos[repo := RepoRow(None, None)])
  }

  function UpsertChart(t: Tables, repo: RepoKey, chart: Chart): Tables {
    t.(charts := t.charts[ChartKey(repo, chart.id) := chart])
  }

  /** Deleting charts takes their files along. */
  function DeleteCharts(t: Tables, doomed: set<ChartKey>): Tables {
    t.(charts := t.charts - doomed,
       files := map f | f in t.files && ChartKey(t.files[f].repo, t.files[f].chartId) !in doomed :: t.files[f])
  }

  function DeleteRepo(t: Tables, repo: RepoKey): Tables {
    var rest := DeleteCharts(t, set k | k in t.charts && k.repo == repo);
    rest.(repos := t.repos - {repo}, files := map f | f in rest.files && rest.files[f].repo != repo :: rest.files[f])
  }

  function SetChecksum(t: Tables, repo: RepoKey, checksum: string, now: string): Tables {
    t.(repos := t.repos[repo := RepoRow(Some(checksum), Some(now))])
  }

  function LastChecksum(t: Tables, repo: RepoKey): string {
    if repo in t.repos && t.repos[repo].checksum.Some? then t.repos[repo].checksum.value else ""
  }

  function FilesExist(t: Tables, repo: RepoKey, filesId: string, digest: string): bool {
    var key := FileKey(repo.namespace, filesId);
    key in t.files && t.files[key].repo == repo && t.files[key].digest == digest
  }

  /** Insert or, on a conflict, update the info alone: the row keeps its repository and chart.  None is the
      foreign key error of a row for a chart that is not there. */
  function InsertFiles(t: Tables, repo: RepoKey, chartId: string, filesId: string, digest: string, content: Content)
    : Option<Tables>
  {
    var key := FileKey(repo.namespace, filesId);
    if key in t.files then Some(t.(files := t.files[key := t.files[key].(digest := digest, content := content)]))
    else if repo in t.repos && ChartKey(repo, chartId) in t.charts then
      Some(t.(files := t.files[key := FileRow(repo, chartId, digest, content)]))
    else None
  }

  function ImportCharts(t: Tables, repo: RepoKey, charts: seq<Chart>): Tables {
    if charts == [] then t
    else UpsertChart(ImportCharts(t, repo, charts[..|charts| - 1]), repo, charts[|charts| - 1])
  }

  function Ids(charts: seq<Chart>): (ids: set<string>)
    ensures forall id :: id in ids <==> exists c :: c in charts && c.id == id
  {
    set c | c in charts :: c.id
  }

  function RemoveMissing(t: Tables, repo: RepoKey, charts: seq<Chart>): Tables {
    DeleteCharts(t, set k | k in t.charts && k.repo == repo && k.id !in Ids(charts))
  }

  function SyncTables(t: Tables, repo: RepoKey, charts: seq<Chart>): Tables {
    RemoveMissing(ImportCharts(EnsureRepo(t, repo), repo, charts), repo, charts)
  }

  /** The charts a Sync has upserted when the given number of statements has gone through: the first one is for the
      repository. */
  function Upserted(charts: seq<Chart>, statements: nat): seq<Chart> {
    charts[..if statements == 0 then 0 else if statements <= |charts| then statements - 1 else |charts|]
  }

  /** What a Sync leaves that failed when the given number of statements had gone through. */
  function PartialSync(t: Tables, repo: RepoKey, charts: seq<Chart>, statements: nat): Tables {
    if statements == 0 then t else ImportCharts(EnsureRepo(t, repo), repo, Upserted(charts, statements))
  }

  // ----- What a statement keeps -----

  lemma InsertKeepsKeys(t: Tables, repo: RepoKey, chartId: string, filesId: string, digest: string, content: Content)
    requires KeysHold(t)
    ensures InsertFiles(t, repo, chartId, filesId, digest, content).Some? ==>
      KeysHold(InsertFiles(t, repo, chartId, filesId, digest, content).value)
  {
  }

  lemma IdsSnoc(charts: seq<Chart>)
    requires charts != []
    ensures Ids(charts) == Ids(charts[..|charts| - 1]) + {charts[|charts| - 1].id}
  {
    assert charts == charts[..|charts| - 1] + [charts[|charts| - 1]];
  }

  lemma {:induction false} ImportedKeys(t: Tables, repo: RepoKey, charts: seq<Chart>)
    requires KeysHold(t) && repo in t.repos
    ensures var r := ImportCharts(t, repo, charts);
            && KeysHold(r) && r.repos == t.repos && r.files == t.files
            && (forall k :: k in r.charts <==> k in t.charts || (k.repo == repo && k.id in Ids(charts)))
            && (forall k :: k in t.charts && !(k.repo == repo && k.id in Ids(charts)) ==> r.charts[k] == t.charts[k])
  {
    if charts != [] {
      ImportedKeys(t, repo, charts[..|charts| - 1]);
      IdsSnoc(charts);
    }
  }

  lemma {:induction false} ImportedLast(t: Tables, repo: RepoKey, charts: seq<Chart>, i: nat)
    requires IsLastListed(charts, i)
    ensures Get(ImportCharts(t, repo, charts).charts, ChartKey(repo, charts[i].id)) == Some(charts[i])
  {
    var init := charts[..|charts| - 1];
    if i < |init| {
      assert charts[|charts| - 1].id != charts[i].id;
      assert forall j :: 0 <= j < |init| ==> init[j] == charts[j];
      ImportedLast(t, repo, init, i);
    }
  }

  lemma ImportedCharts(t: Tables, repo: RepoKey, charts: seq<Chart>)
    requires KeysHold(t) && repo in t.repos
    ensures var r := ImportCharts(t, repo, charts);
            && KeysHold(r) && r.repos == t.repos && r.files == t.files
            && (forall k :: k in r.charts <==> k in t.charts || (k.repo == repo && k.id in Ids(charts)))
            && (forall k :: k in t.charts && !(k.repo == repo && k.id in Ids(charts)) ==> r.charts[k] == t.charts[k])
            && (forall i :: IsLastListed(charts, i) ==> r.charts[ChartKey(repo, charts[i].id)] == charts[i])
  {
    ImportedKeys(t, repo, charts);
    var r := ImportCharts(t, repo, charts);
    forall i | IsLastListed(charts, i) ensures r.charts[ChartKey(repo, charts[i].id)] == charts[i] {
      ImportedLast(t, repo, charts, i);
      assert charts[i].id in Ids(charts);
    }
  }

  /** The list's last word on an id: no later entry has the same one. */
  ghost predicate IsLastListed(charts: seq<Chart>, i: int) {
    0 <= i < |charts| && forall j :: i < j < |charts| ==> charts[j].id != charts[i].id
  }

  ghost function LastIndex(charts: seq<Chart>, id: string): (i: nat)
    requires id in Ids(charts)
    ensures IsLastListed(charts, i) && charts[i].id == id
  {
    var last := |charts| - 1;
    if charts[last].id == id then last
    else
      assert charts == charts[..last] + [charts[last]];
      LastIndex(charts[..last], id)
  }

  lemma LastIndexUnique(charts: seq<Chart>, i: int)
    requires IsLastListed(charts, i)
    ensures charts[i].id in Ids(charts) && LastIndex(charts, charts[i].id) == i
  {
    var last := LastIndex(charts, charts[i].id);
    assert IsLastListed(charts, last);
  }

  /** In two lists put together the second has the last word on its ids, the first on the others. */
  lemma LastOfBoth(a: seq<Chart>, b: seq<Chart>, id: string)
    ensures id in Ids(a + b) <==> id in Ids(a) || id in Ids(b)
    ensures id in Ids(b) ==> (a + b)[LastIndex(a + b, id)] == b[LastIndex(b, id)]
    ensures id in Ids(a) && id !in Ids(b) ==> (a + b)[LastIndex(a + b, id)] == a[LastIndex(a, id)]
  {
    assert forall c :: c in a + b <==> c in a || c in b;
    if id in Ids(b) {
      var i := LastIndex(b, id);
      assert (a + b)[|a| + i] == b[i] && forall j :: |a| + i < j < |a + b| ==> (a + b)[j] == b[j - |a|];
      LastIndexUnique(a + b, |a| + i);
    } else if id in Ids(a) {
      var i := LastIndex(a, id);
      assert forall j :: 0 <= j < |b| ==> b[j].id in Ids(b);
      assert (a + b)[i] == a[i];
      LastIndexUnique(a + b, i);
    }
  }

  /** From any state that meets the key constraints: after Sync the repository's charts are exactly the last
      listed chart of each listed id, other repositories keep theirs, only files of removed charts go, and
      the constraints still hold. */
  lemma SyncIsExact(t: Tables, repo: RepoKey, charts: seq<Chart>)
    requires KeysHold(t)
    ensures var r := SyncTables(t, repo, charts);
            && KeysHold(r)
            && r.repos == EnsureRepo(t, repo).repos
            && r.repos == (if repo in t.repos then t.repos else t.repos[repo := RepoRow(None, None)])
            && (forall id :: ChartKey(repo, id) in r.charts <==> id in Ids(charts))
            && (forall i :: IsLastListed(charts, i) ==> r.charts[ChartKey(repo, charts[i].id)] == charts[i])
            && (forall k: ChartKey :: k.repo != repo ==> (k in r.charts <==> k in t.charts))
            && (forall k: ChartKey :: k.repo != repo && k in t.charts ==> r.charts[k] == t.charts[k])
            && (forall f :: f in r.files <==>
                  f in t.files && (t.files[f].repo == repo ==> t.files[f].chartId in Ids(charts)))
            && (forall f :: f in r.files ==> r.files[f] == t.files[f])
  {
    ImportedCharts(EnsureRepo(t, repo), repo, charts);
    forall i | IsLastListed(charts, i) ensures charts[i].id in Ids(charts) {
    }
  }

  /** The charts row under one key after Sync. */
  ghost function SyncedChart(t: Tables, repo: RepoKey, charts: seq<Chart>, k: ChartKey): Option<Chart> {
    if k.repo != repo then Get(t.charts, k)
    else if k.id in Ids(charts) then Some(charts[LastIndex(charts, k.id)])
    else None
  }

  ghost function SyncedFile(t: Tables, repo: RepoKey, charts: seq<Chart>, f: FileKey): Option<FileRow> {
    if f in t.files && (t.files[f].repo == repo ==> t.files[f].chartId in Ids(charts)) then Some(t.files[f]) else None
  }

  lemma SyncSetsChart(t: Tables, repo: RepoKey, charts: seq<Chart>, k: ChartKey)
    requires KeysHold(t)
    ensures Get(SyncTables(t, repo, charts).charts, k) == SyncedChart(t, repo, charts, k)
  {
    SyncIsExact(t, repo, charts);
    if k.repo == repo {
      assert k == ChartKey(repo, k.id);
    }
  }

  lemma SyncSetsFile(t: Tables, repo: RepoKey, charts: seq<Chart>, f: FileKey)
    requires KeysHold(t)
    ensures Get(SyncTables(t, repo, charts).files, f) == SyncedFile(t, repo, charts, f)
  {
    SyncIsExact(t, repo, charts);
  }

  /** Sync forgets this repository's charts: it only looks at the other ones, the repos and the files. */
  lemma SyncForgets(a: Tables, b: Tables, repo: RepoKey, charts: seq<Chart>)
    requires KeysHold(a) && KeysHold(b)
    requires EnsureRepo(a, repo).repos == EnsureRepo(b, repo).repos && a.files == b.files
    requires forall k: ChartKey :: k.repo != repo ==> Get(a.charts, k) == Get(b.charts, k)
    ensures SyncTables(a, repo, charts) == SyncTables(b, repo, charts)
  {
    var x, y := SyncTables(a, repo, charts), SyncTables(b, repo, charts);
    forall k ensures Get(x.charts, k) == Get(y.charts, k) {
      SyncSetsChart(a, repo, charts, k);
      SyncSetsChart(b, repo, charts, k);
    }
    SameMap(x.charts, y.charts);
    forall f ensures Get(x.files, f) == Get(y.files, f) {
      SyncSetsFile(a, repo, charts, f);
      SyncSetsFile(b, repo, charts, f);
    }
    SameMap(x.files, y.files);
    SyncSetsRepos(a, repo, charts);
    SyncSetsRepos(b, repo, charts);
  }

  lemma SyncSetsRepos(t: Tables, repo: RepoKey, charts: seq<Chart>)
    requires KeysHold(t)
    ensures SyncTables(t, repo, charts).repos == EnsureRepo(t, repo).repos
  {
    SyncIsExact(t, repo, charts);
  }

  /** What a failed Sync left behind does not show after a full one. */
  lemma SyncErasesFailure(t: Tables, repo: RepoKey, other: seq<Chart>, statements: nat, charts: seq<Chart>)
    requires KeysHold(t)
    ensures var left := PartialSync(t, repo, other, statements);
            && KeysHold(left) && LastChecksum(left, repo) == LastChecksum(t, repo)
            && SyncTables(left, repo, charts) == SyncTables(t, repo, charts)
  {
    if statements > 0 {
      ImportedCharts(EnsureRepo(t, repo), repo, Upserted(other, statements));
      SyncForgets(PartialSync(t, repo, other, statements), t, repo, charts);
    }
  }

  /** Deleting takes the repository's row, charts and files and nothing else. */
  lemma DeleteIsExact(t: Tables, repo: RepoKey)
    requires KeysHold(t)
    ensures var r := DeleteRepo(t, repo);
            && KeysHold(r) && LastChecksum(r, repo) == ""
            && r.repos == t.repos - {repo}
            && (forall k :: k in r.charts <==> k in t.charts && k.repo != repo)
            && (forall k :: k in r.charts ==> r.charts[k] == t.charts[k])
            && (forall f :: f in r.files <==> f in t.files && t.files[f].repo != repo)
            && (forall f :: f in r.files ==> r.files[f] == t.files[f])
  {
  }

  /** Storing a checksum sets the repository's row, with the date, and nothing else. */
  lemma SetChecksumIsExact(t: Tables, repo: RepoKey, checksum: string, now: string)
    ensures var r := SetChecksum(t, repo, checksum, now);
            && r.charts == t.charts && r.files == t.files
            && repo in r.repos && r.repos[repo] == RepoRow(Some(checksum), Some(now))
            && (forall k :: k != repo ==> Get(r.repos, k) == Get(t.repos, k))
            && LastChecksum(r, repo) == checksum
  {
  }

  /** Until its last statement Sync only adds: of the charts upserted the last of each id is there, every other row
      is as it was, and the repository has a row. */
  lemma PartialSyncIsExact(t: Tables, repo: RepoKey, charts: seq<Chart>, statements: nat)
    requires KeysHold(t) && 0 < statements
    ensures var r := PartialSync(t, repo, charts, statements);
            var n := if statements <= |charts| then statements - 1 else |charts|;
            && r.files == t.files
            && r.repos == (if repo in t.repos then t.repos else t.repos[repo := RepoRow(None, None)])
            && (forall i :: IsLastListed(charts[..n], i) ==>
                  Get(r.charts, ChartKey(repo, charts[i].id)) == Some(charts[i]))
            && (forall k: ChartKey :: k.repo != repo || (forall i :: 0 <= i < n ==> charts[i].id != k.id) ==>
                  Get(r.charts, k) == Get(t.charts, k))
  {
    var n := if statements <= |charts| then statements - 1 else |charts|;
    assert Upserted(charts, statements) == charts[..n];
    ImportedCharts(EnsureRepo(t, repo), repo, charts[..n]);
    forall k: ChartKey | k.repo == repo && (forall i :: 0 <= i < n ==> charts[i].id != k.id)
      ensures k.id !in Ids(charts[..n])
    {
    }
  }

  // ----- Statements that fail -----

  /** How many of the statements to come go through before one fails; `answers` says how each will go, and beyond its
      end none goes through. */
  function Streak(answers: seq<bool>): (n: nat)
    ensures n <= |answers| && (forall i :: 0 <= i < n ==> answers[i]) && (n < |answers| ==> !answers[n])
  {
    if answers == [] || !answers[0] then 0 else 1 + Streak(answers[1..])
  }

  /** The answers left after n statements. */
  function Later(answers: seq<bool>, n: nat): seq<bool> {
    if n <= |answers| then answers[n..] else []
  }

  lemma {:induction false} StreakLater(answers: seq<bool>, n: nat)
    requires n <= Streak(answers)
    ensures n <= |answers| && Streak(Later(answers, n)) == Streak(answers) - n
  {
    if n > 0 {
      StreakLater(answers[1..], n - 1);
      assert answers[1..][n - 1..] == answers[n..];
    }
  }

  lemma LaterLater(answers: seq<bool>, m: nat, n: nat)
    ensures Later(Later(answers, m), n) == Later(answers, m + n)
  {
  }

  // ----- The manager -----

  class PostgresAssetManager {
    var repos: map<RepoKey, RepoRow>
    var charts: map<ChartKey, Chart>
    var files: map<FileKey, FileRow>
    // How the statements to come will go.
    var answers: seq<bool>

    function Now(): Tables
      reads this
    {
      Tables(repos, charts, files)
    }

    ghost predicate Valid()
      reads this
    {
      KeysHold(Now())
    }

    constructor (answers: seq<bool>)
      ensures Valid() && Now() == Tables(map[], map[], map[]) && this.answers == answers
    {
      repos, charts, files := map[], map[], map[];
      this.answers := answers;
    }

    method Statement() returns (ok: bool)
      modifies this`answers
      ensures ok <==> Streak(old(answers)) > 0
      ensures answers == Later(old(answers), 1)
    {
      ok := answers != [] && answers[0];
      if answers != [] {
        answers := answers[1..];
      }
    }

    method EnsureRepoExists(repo: RepoKey) returns (ok: bool)
      requires Valid()
      modifies this
      ensures Valid() && ok == (Streak(old(answers)) > 0)
      ensures answers == Later(old(answers), 1)
      ensures Now() == if ok then EnsureRepo(old(Now()), repo) else old(Now())
      ensures charts == old(charts) && files == old(files)
      ensures repos == if ok && repo !in old(repos) then old(repos)[repo := RepoRow(None, None)] else old(repos)
    {
      ok := Statement();
      if ok && repo !in repos {
        repos := repos[repo := RepoRow(None, None)];
      }
    }

    method Upsert(repo: RepoKey, chart: Chart) returns (ok: bool)
      requires Valid() && repo in repos
      modifies this
      ensures Valid() && ok == (Streak(old(answers)) > 0)
      ensures answers == Later(old(answers), 1)
      ensures Now() == if ok then UpsertChart(old(Now()), repo, chart) else old(Now())
      ensures repos == old(repos) && files == old(files)
      ensures charts == if ok then old(charts)[ChartKey(repo, chart.id) := chart] else old(charts)
    {
      ok := Statement();
      if ok {
        charts := charts[ChartKey(repo, chart.id) := chart];
      }
    }

    /** Upserts chart by chart; a failing statement ends the loop with the earlier charts in place. */
    method ImportAll(list: seq<Chart>, repo: RepoKey) returns (ok: bool)
      requires Valid() && repo in repos
      modifies this
      ensures Valid() && ok == (Streak(old(answers)) >= |list|)
      ensures ok ==> answers == Later(old(answers), |list|) && Now() == ImportCharts(old(Now()), repo, list)
      ensures !ok ==> Now() == ImportCharts(old(Now()), repo, list[..Streak(old(answers))])
    {
      for i := 0 to |list|
        invariant Valid() && repo in repos
        invariant Streak(old(answers)) >= i && answers == Later(old(answers), i)
        invariant Now() == ImportCharts(old(Now()), repo, list[..i])
      {
        StreakLater(old(answers), i);
        LaterLater(old(answers), i, 1);
        ok := Upsert(repo, list[i]);
        if !ok {
          return;
        }
        assert list[..i + 1][..i] == list[..i];
      }
      assert list[..|list|] == list;
      return true;
    }

    /** An empty list makes the statement end in `NOT IN ()`, which is no SQL. */
    method RemoveMissingCharts(repo: RepoKey, list: seq<Chart>) returns (ok: bool)
      requires Valid()
      modifies this
      ensures Valid() && ok == (Streak(old(answers)) > 0 && list != [])
      ensures answers == Later(old(answers), 1)
      ensures Now() == if ok then RemoveMissing(old(Now()), repo, list) else old(Now())
      ensures repos == old(repos)
      ensures forall k: ChartKey :: k in charts <==>
        k in old(charts) && (ok && k.repo == repo ==> exists c :: c in list && c.id == k.id)
      ensures forall k: ChartKey :: k in charts ==> charts[k] == old(charts)[k]
      ensures forall f: FileKey :: f in files <==>
        f in old(files) && ChartKey(old(files)[f].repo, old(files)[f].chartId) in charts
      ensures forall f: FileKey :: f in files ==> files[f] == old(files)[f]
    {
      ok := Statement();
      if list == [] {
        return false;
      }
      if ok {
        var doomed := set k | k in charts && k.repo == repo && k.id !in Ids(list);
        charts := charts - doomed;
        files := map f | f in files && ChartKey(files[f].repo, files[f].chartId) !in doomed :: files[f];
      }
    }

    /** Completes exactly when no statement fails and the list is not empty. */
    method Sync(repo: RepoKey, list: seq<Chart>) returns (ok: bool)
      requires Valid()
      modifies this
      ensures Valid()
      ensures ok <==> Streak(old(answers)) >= |list| + 2 && list != []
      ensures ok ==> answers == Later(old(answers), |list| + 2) && Now() == SyncTables(old(Now()), repo, list)
      ensures !ok ==> Now() == PartialSync(old(Now()), repo, list, Streak(old(answers)))
    {
      ok := EnsureRepoExists(repo);
      if !ok {
        return;
      }
      StreakLater(old(answers), 1);
      ok := ImportAll(list, repo);
      if !ok {
        return;
      }
      LaterLater(old(answers), 1, |list|);
      StreakLater(old(answers), |list| + 1);
      LaterLater(old(answers), |list| + 1, 1);
      ok := RemoveMissingCharts(repo, list);
      if !ok {
        assert list[..|list|] == list;
      }
    }

    /** A query that fails leaves the empty string, as a repository never synced does. */
    method GetLastChecksum(repo: RepoKey) returns (checksum: string)
      modifies this`answers
      ensures checksum == if Streak(old(answers)) > 0 then LastChecksum(Now(), repo) else ""
      ensures checksum != "" ==> repo in repos && repos[repo].checksum == Some(checksum)
      ensures Streak(old(answers)) > 0 && repo in repos && repos[repo].checksum.Some? ==>
        Some(checksum) == repos[repo].checksum
      ensures answers == Later(old(answers), 1)
    {
      var ok := Statement();
      checksum := "";
      if ok && repo in repos && repos[repo].checksum.Some? {
        checksum := repos[repo].checksum.value;
      }
    }

    method UpdateLastCheck(repo: RepoKey, checksum: string, now: string) returns (ok: bool)
      requires Valid()
      modifies this
      ensures Valid() && ok == (Streak(old(answers)) > 0)
      ensures Now() == if ok then SetChecksum(old(Now()), repo, checksum, now) else old(Now())
      ensures charts == old(charts) && files == old(files)
      ensures repos == if ok then old(repos)[repo := RepoRow(Some(checksum), Some(now))] else old(repos)
    {
      ok := Statement();
      if ok {
        repos := repos[repo := RepoRow(Some(checksum), Some(now))];
      }
    }

    method Delete(repo: RepoKey) returns (ok: bool)
      requires Valid()
      modifies this
      ensures Valid() && ok == (Streak(old(answers)) > 0)
      ensures Now() == if ok then DeleteRepo(old(Now()), repo) else old(Now())
      ensures repos == if ok then old(repos) - {repo} else old(repos)
      ensures forall k: ChartKey :: k in charts <==> k in old(charts) && (ok ==> k.repo != repo)
      ensures forall k: ChartKey :: k in charts ==> charts[k] == old(charts)[k]
      ensures forall f: FileKey :: f in files <==> f in old(files) && (ok ==> old(files)[f].repo != repo)
      ensures forall f: FileKey :: f in files ==> files[f] == old(files)[f]
    {
      ok := Statement();
      if ok {
        DeleteIsExact(Now(), repo);
        var doomed := set k | k in charts && k.repo == repo;
        charts := charts - doomed;
        files := map f | f in files && ChartKey(files[f].repo, files[f].chartId) !in doomed :: files[f];
        repos := repos - {repo};
        files := map f | f in files && files[f].repo != repo :: files[f];
      }
    }

    method GetFilesExist(repo: RepoKey, filesId: string, digest: string) returns (exist: bool)
      modifies this`answers
      ensures exist == (Streak(old(answers)) > 0 && FilesExist(Now(), repo, filesId, digest))
      ensures var key := FileKey(repo.namespace, filesId);
              exist <==>
              Streak(old(answers)) > 0 && key in files && files[key].repo == repo && files[key].digest == digest
      ensures answers == Later(old(answers), 1)
    {
      var ok := Statement();
      var key := FileKey(repo.namespace, filesId);
      exist := ok && key in files && files[key].repo == repo && files[key].digest == digest;
    }

    method Insert(repo: RepoKey, chartId: string, filesId: string, digest: string, content: Content) returns (ok: bool)
      requires Valid()
      modifies this
      ensures Valid()
      ensures answers == Later(old(answers), 1)
      ensures ok <==> Streak(old(answers)) > 0 && InsertFiles(old(Now()), repo, chartId, filesId, digest, content).Some?
      ensures Now() == if ok then InsertFiles(old(Now()), repo, chartId, filesId, digest, content).value else old(Now())
      ensures var key := FileKey(repo.namespace, filesId);
              && repos == old(repos) && charts == old(charts)
              && (ok <==>
                    Streak(old(answers)) > 0
                    && (key in old(files) || (repo in repos && ChartKey(repo, chartId) in charts)))
              && files ==
                 if !ok then old(files)
                 else if key in old(files) then
                   old(files)[key := old(files)[key].(digest := digest, content := content)]
                 else old(files)[key := FileRow(repo, chartId, digest, content)]
    {
      InsertKeepsKeys(Now(), repo, chartId, filesId, digest, content);
      ok := Statement();
      var key := FileKey(repo.namespace, filesId);
      if ok {
        if key in files {
          files := files[key := files[key].(digest := digest, content := content)];
        } else if repo in repos && ChartKey(repo, chartId) in charts {
          files := files[key := FileRow(repo, chartId, digest, content)];
        } else {
          ok := false;
        }
      }
    }

    /** Drops the tables and creates them anew. */
    method InvalidateCache() returns (ok: bool)
      modifies this
      ensures ok == (Streak(old(answers)) > 0)
      ensures Now() == if ok then Tables(map[], map[], map[]) else old(Now())
    {
      ok := Statement();
      if ok {
        repos, charts, files := map[], map[], map[];
      }
    }
  }
}
