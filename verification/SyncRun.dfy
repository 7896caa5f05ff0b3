/** One `asset-syncer sync` run, and what any sequence of runs of one repository guarantees. */
module SyncRun {
  import opened Wrappers
  import opened Sequences
  import opened Catalogue
  import opened FileImport
  import JqRule

  /** What a run reads: the checksum of the index, the charts it lists (latest versions only or all), the filter rule
      with the regular expressions it may use, and the files, which may be fetched in one pass and not in the other. */
  datatype Source = Source(
    checksum: Option<string>, listed: bool -> Option<seq<Chart>>, rule: Option<JqRule.Spec>,
    matches: (string, string) -> Option<bool>, fetch: bool -> Fetch, now: string)

  /** The charts of a pass: those listed that the rule keeps; None for an unreadable index or a rule that fails. */
  function Charts(src: Source, latestOnly: bool): Option<seq<Chart>> {
    match src.listed(latestOnly)
    case None => None
    case Some(listed) => JqRule.Filtered(src.matches, listed, src.rule)
  }

  /** What a pass works on: of the charts listed for it those that the rule keeps, in order; all of them without a
      rule. */
  lemma ChartsAreThoseKept(src: Source, latestOnly: bool)
    ensures src.listed(latestOnly).None? ==> Charts(src, latestOnly).None?
    ensures src.rule.None? ==> Charts(src, latestOnly) == src.listed(latestOnly)
    ensures Charts(src, latestOnly).Some? ==>
      Charts(src, latestOnly).value
      == FlatMap(KeepIf((c: Chart) => JqRule.KeptBy(src.matches, src.rule, c)), src.listed(latestOnly).value)
  {
    if Charts(src, latestOnly).Some? {
      var listed := src.listed(latestOnly).value;
      JqRule.FilteredOneByOne(src.matches, listed, src.rule);
      FlatMapSame(JqRule.KeptCharts(src.matches, src.rule),
                  KeepIf((c: Chart) => JqRule.KeptBy(src.matches, src.rule, c)), listed);
    }
  }

  ghost predicate WellFormed(src: Source) {
    && src.checksum != Some("")
    && forall latestOnly :: Charts(src, latestOnly).Some? ==> HaveVersions(Charts(src, latestOnly).value)
  }

  datatype Outcome = Skipped | Completed | Fatal

  function Pass(t: Tables, repo: RepoKey, fetch: Fetch, charts: seq<Chart>): Tables {
    ImportAll(repo, fetch, SyncTables(t, repo, charts), FileJobs(charts))
  }

  /** A pass needs charts, and some, as an empty list is no SQL. */
  predicate HasCharts(src: Source, latestOnly: bool) {
    Charts(src, latestOnly).Some? && Charts(src, latestOnly).value != []
  }

  /** What a run must read to complete, once it has read `last` as the stored checksum. */
  predicate CanComplete(src: Source, last: string) {
    && src.checksum.Some? && src.checksum.value != last
    && HasCharts(src, false) && (last == "" ==> HasCharts(src, true))
  }

  /** The statements of a pass: Sync, then for each job a look and at most one insert. */
  function PassStatements(charts: seq<Chart>): nat {
    |charts| + 2 + 2 * |FileJobs(charts)|
  }

  /** The statements of a run after the checksum has been read. */
  function RunStatements(src: Source, last: string): nat
    requires CanComplete(src, last)
  {
    (if last == "" then PassStatements(Charts(src, true).value) else 0) + PassStatements(Charts(src, false).value) + 1
  }

  /** What a run reads as the stored checksum. */
  function ReadChecksum(t: Tables, repo: RepoKey, answers: seq<bool>): string {
    if Streak(answers) > 0 then LastChecksum(t, repo) else ""
  }

  function FirstPass(t: Tables, repo: RepoKey, src: Source, last: string): Tables
    requires last == "" ==> HasCharts(src, true)
  {
    if last == "" then Pass(t, repo, src.fetch(true), Charts(src, true).value) else t
  }

  /** The tables after a completed run: a shallow pass first if no checksum was read. */
  function CompletedTables(t: Tables, repo: RepoKey, src: Source, last: string): Tables
    requires CanComplete(src, last)
  {
    SetChecksum(Pass(FirstPass(t, repo, src, last), repo, src.fetch(false), Charts(src, false).value),
                repo, src.checksum.value, src.now)
  }

  /** The tables, and how the statements to come will go. */
  datatype Db = Db(tables: Tables, answers: seq<bool>)

  /** After a look for the files of a job and, unless they are there or cannot be fetched, an insert; a look that fails
      finds nothing. */
  function Fetched(repo: RepoKey, fetch: Fetch, db: Db, job: FileJob): Db {
    var found := Streak(db.answers) > 0 && FilesExist(db.tables, repo, FilesId(repo, job), job.version.digest);
    var rest := Later(db.answers, 1);
    if found || fetch(job).None? then Db(db.tables, rest)
    else
      Db(if Streak(rest) > 0 then Store(repo, db.tables, job, fetch(job).value) else db.tables, Later(rest, 1))
  }

  function FetchedAll(repo: RepoKey, fetch: Fetch, db: Db, jobs: seq<FileJob>): Db {
    if jobs == [] then db else Fetched(repo, fetch, FetchedAll(repo, fetch, db, jobs[..|jobs| - 1]), jobs[|jobs| - 1])
  }

  /** After a pass; None when it has no charts or Sync fails.  Files that fail do not stop it. */
  function AfterPass(repo: RepoKey, src: Source, latestOnly: bool, db: Db): Option<Db> {
    if !HasCharts(src, latestOnly) || Streak(db.answers) < |Charts(src, latestOnly).value| + 2 then None
    else
      var charts := Charts(src, latestOnly).value;
      var synced := Db(SyncTables(db.tables, repo, charts), Later(db.answers, |charts| + 2));
      Some(FetchedAll(repo, src.fetch(latestOnly), synced, FileJobs(charts)))
  }

  function AfterPasses(repo: RepoKey, src: Source, last: string, db: Db): Option<Db> {
    var first := if last == "" then AfterPass(repo, src, true, db) else Some(db);
    if first.None? then None else AfterPass(repo, src, false, first.value)
  }

  /** After a run that ends with the checksum stored; None for a run that skips or fails. */
  function AfterRun(repo: RepoKey, src: Source, db: Db): Option<Tables> {
    var last := ReadChecksum(db.tables, repo, db.answers);
    var passes := AfterPasses(repo, src, last, Db(db.tables, Later(db.answers, 1)));
    if src.checksum.None? || src.checksum.value == last || passes.None? || Streak(passes.value.answers) == 0 then None
    else Some(SetChecksum(passes.value.tables, repo, src.checksum.value, src.now))
  }

  /** What a pass leaves that fails: without charts nothing has been written. */
  function LeftByPass(repo: RepoKey, src: Source, latestOnly: bool, db: Db): Tables {
    match Charts(src, latestOnly)
    case None => db.tables
    case Some(charts) => PartialSync(db.tables, repo, charts, Streak(db.answers))
  }

  function LeftByPasses(repo: RepoKey, src: Source, last: string, db: Db): Tables {
    if last != "" then LeftByPass(repo, src, false, db)
    else
      match AfterPass(repo, src, true, db)
      case None => LeftByPass(repo, src, true, db)
      case Some(first) => LeftByPass(repo, src, false, first)
  }

  /** What a run leaves that fails, in one of its passes or when the checksum is to be written. */
  function LeftByRun(repo: RepoKey, src: Source, db: Db): Tables {
    if src.checksum.None? then db.tables
    else
      var last, next := ReadChecksum(db.tables, repo, db.answers), Db(db.tables, Later(db.answers, 1));
      match AfterPasses(repo, src, last, next)
      case None => LeftByPasses(repo, src, last, next)
      case Some(done) => done.tables
  }

  /** No other repository's row or chart has changed; RunKeepsOtherFiles adds the files. */
  ghost predicate OthersUntouched(t: Tables, r: Tables, repo: RepoKey) {
    && (forall k: RepoKey :: k != repo ==> Get(r.repos, k) == Get(t.repos, k))
    && (forall k: ChartKey :: k.repo != repo ==> Get(r.charts, k) == Get(t.charts, k))
  }

  /** What one run may do to the database it starts on. */
  ghost predicate RunDoes(repo: RepoKey, src: Source, db: Db, outcome: Outcome, r: Tables) {
    && KeysHold(r) && OthersUntouched(db.tables, r, repo)
    && match outcome
       case Skipped => r == db.tables && src.checksum == Some(LastChecksum(db.tables, repo))
       case Completed =>
         && src.checksum.Some? && HasCharts(src, false) && Some(r) == AfterRun(repo, src, db)
         && Get(r.repos, repo) == Some(RepoRow(src.checksum, Some(src.now)))
         && ChartsAre(r, repo, Charts(src, false).value)
       case Fatal => LastChecksum(r, repo) == LastChecksum(db.tables, repo) && r == LeftByRun(repo, src, db)
  }

  /** The repository's chart rows are those a Sync of this list leaves. */
  ghost predicate ChartsAre(t: Tables, repo: RepoKey, charts: seq<Chart>) {
    forall k: ChartKey | k.repo == repo :: Get(t.charts, k) == SyncedChart(t, repo, charts, k)
  }

  lemma PassKeeps(t: Tables, repo: RepoKey, fetch: Fetch, charts: seq<Chart>)
    requires KeysHold(t)
    ensures var r := Pass(t, repo, fetch, charts);
            KeysHold(r) && OthersUntouched(t, r, repo) && ChartsAre(r, repo, charts)
              && r.repos == EnsureRepo(t, repo).repos
            && r.charts == SyncTables(t, repo, charts).charts
  {
    var synced := SyncTables(t, repo, charts);
    SyncIsExact(t, repo, charts);
    ImportKeepsKeys(repo, fetch, synced, FileJobs(charts));
    ImportKeepsCharts(repo, fetch, synced, FileJobs(charts));
    forall k: ChartKey ensures Get(synced.charts, k) == SyncedChart(t, repo, charts, k) {
      SyncSetsChart(t, repo, charts, k);
    }
  }

  lemma {:induction false} ImportKeepsCharts(repo: RepoKey, fetch: Fetch, t: Tables, jobs: seq<FileJob>)
    ensures ImportAll(repo, fetch, t, jobs).charts == t.charts && ImportAll(repo, fetch, t, jobs).repos == t.repos
  {
    if jobs != [] {
      ImportKeepsCharts(repo, fetch, t, jobs[..|jobs| - 1]);
      ImportIsLocal(repo, fetch, ImportAll(repo, fetch, t, jobs[..|jobs| - 1]), jobs[|jobs| - 1]);
    }
  }

  lemma SameCharts(repo: RepoKey, t: Tables, r: Tables, charts: seq<Chart>)
    requires forall k: ChartKey | k.repo == repo :: Get(r.charts, k) == Get(t.charts, k)
    requires ChartsAre(t, repo, charts)
    ensures ChartsAre(r, repo, charts)
  {
    forall k: ChartKey | k.repo == repo ensures Get(r.charts, k) == SyncedChart(r, repo, charts, k) {
      assert Get(t.charts, k) == SyncedChart(t, repo, charts, k);
    }
  }

  // ----- The run -----

  /** Two statements suffice to import the job; whichever fails, the tables stay or gain the fetched files. */
  method FetchAndImportFiles(db: PostgresAssetManager, repo: RepoKey, fetch: Fetch, job: FileJob)
    requires db.Valid()
    modifies db
    ensures db.Valid() && db.repos == old(db.repos) && db.charts == old(db.charts)
    ensures Db(db.Now(), db.answers) == Fetched(repo, fetch, Db(old(db.Now()), old(db.answers)), job)
    ensures db.Now() == old(db.Now())
            || (fetch(job).Some? && db.Now() == Store(repo, old(db.Now()), job, fetch(job).value))
    ensures Streak(old(db.answers)) >= 2 ==>
      db.Now() == ImportOne(repo, fetch, old(db.Now()), job) && Streak(db.answers) >= Streak(old(db.answers)) - 2
  {
    ghost var n := Streak(db.answers);
    if n >= 2 {
      StreakLater(db.answers, 1);
      StreakLater(db.answers, 2);
      LaterLater(db.answers, 1, 1);
    }
    var exist := db.GetFilesExist(repo, FilesId(repo, job), job.version.digest);
    if exist {
      return;
    }
    match fetch(job)
    case None =>
    case Some(content) =>
      var ok := db.Insert(repo, ChartId(repo, job.name), FilesId(repo, job), job.version.digest, content);
  }

  /** One of the schedules of fetchFiles; FilePool shows that every other one leaves the same tables. */
  method FetchFiles(db: PostgresAssetManager, repo: RepoKey, fetch: Fetch, charts: seq<Chart>)
    requires db.Valid() && HaveVersions(charts)
    modifies db
    ensures db.Valid() && db.repos == old(db.repos) && db.charts == old(db.charts)
    ensures Db(db.Now(), db.answers) == FetchedAll(repo, fetch, Db(old(db.Now()), old(db.answers)), FileJobs(charts))
    ensures Streak(old(db.answers)) >= 2 * |FileJobs(charts)| ==>
      db.Now() == ImportAll(repo, fetch, old(db.Now()), FileJobs(charts))
      && Streak(db.answers) >= Streak(old(db.answers)) - 2 * |FileJobs(charts)|
  {
    var jobs := FileJobs(charts);
    ghost var before, n, start := db.Now(), Streak(db.answers), Db(db.Now(), db.answers);
    ghost var enough := n >= 2 * |jobs|;
    for i := 0 to |jobs|
      invariant db.Valid() && db.repos == old(db.repos) && db.charts == old(db.charts)
      invariant Db(db.Now(), db.answers) == FetchedAll(repo, fetch, start, jobs[..i])
      invariant enough ==> db.Now() == ImportAll(repo, fetch, before, jobs[..i])
      invariant enough ==> Streak(db.answers) >= n - 2 * i
    {
      ImportAllStep(repo, fetch, before, jobs, i);
      FetchAndImportFiles(db, repo, fetch, jobs[i]);
    }
    assert jobs[..|jobs|] == jobs;
  }

  lemma ImportAllStep(repo: RepoKey, fetch: Fetch, t: Tables, jobs: seq<FileJob>, i: nat)
    requires i < |jobs|
    ensures ImportAll(repo, fetch, t, jobs[..i + 1])
      == ImportOne(repo, fetch, ImportAll(repo, fetch, t, jobs[..i]), jobs[i])
    ensures forall db: Db ::
      FetchedAll(repo, fetch, db, jobs[..i + 1])
        == Fetched(repo, fetch, FetchedAll(repo, fetch, db, jobs[..i]), jobs[i])
  {
    assert jobs[..i + 1][..i] == jobs[..i];
  }

  /** One pass of the loop: charts, Sync, files.  It succeeds exactly when there are charts and the statements of
      Sync go through; then the chart rows are those of the list whatever happens to the files. */
  method RunPass(db: PostgresAssetManager, repo: RepoKey, src: Source, latestOnly: bool) returns (ok: bool)
    requires db.Valid() && WellFormed(src)
    modifies db
    ensures db.Valid() && OthersUntouched(old(db.Now()), db.Now(), repo)
    ensures LastChecksum(db.Now(), repo) == LastChecksum(old(db.Now()), repo)
    ensures ok <==> HasCharts(src, latestOnly) && Streak(old(db.answers)) >= |Charts(src, latestOnly).value| + 2
    ensures ok ==>
      Some(Db(db.Now(), db.answers)) == AfterPass(repo, src, latestOnly, Db(old(db.Now()), old(db.answers)))
    ensures !ok ==> db.Now() == LeftByPass(repo, src, latestOnly, Db(old(db.Now()), old(db.answers)))
    ensures ok ==> ChartsAre(db.Now(), repo, Charts(src, latestOnly).value)
    ensures ok && Streak(old(db.answers)) >= PassStatements(Charts(src, latestOnly).value) ==>
      db.Now() == Pass(old(db.Now()), repo, src.fetch(latestOnly), Charts(src, latestOnly).value)
      && Streak(db.answers) >= Streak(old(db.answers)) - PassStatements(Charts(src, latestOnly).value)
  {
    ghost var before, answers := db.Now(), db.answers;
    var charts := Charts(src, latestOnly);
    if charts.None? {
      return false;
    }
    ok := db.Sync(repo, charts.value);
    if !ok {
      FailureKeepsOthers(before, repo, charts.value, Streak(answers));
      return;
    }
    StreakLater(answers, |charts.value| + 2);
    SyncedRows(before, repo, charts.value);
    ghost var synced := db.Now();
    FetchFiles(db, repo, src.fetch(latestOnly), charts.value);
    OnlyFilesChanged(before, synced, db.Now(), repo, charts.value);
  }

  lemma OnlyFilesChanged(t: Tables, synced: Tables, r: Tables, repo: RepoKey, charts: seq<Chart>)
    requires OthersUntouched(t, synced, repo) && LastChecksum(synced, repo) == LastChecksum(t, repo)
    requires ChartsAre(synced, repo, charts) && r.repos == synced.repos && r.charts == synced.charts
    ensures OthersUntouched(t, r, repo) && LastChecksum(r, repo) == LastChecksum(t, repo) && ChartsAre(r, repo, charts)
  {
    SameCharts(repo, synced, r, charts);
  }

  lemma FailureKeepsOthers(t: Tables, repo: RepoKey, charts: seq<Chart>, statements: nat)
    requires KeysHold(t)
    ensures var left := PartialSync(t, repo, charts, statements);
            OthersUntouched(t, left, repo) && LastChecksum(left, repo) == LastChecksum(t, repo)
  {
    if statements > 0 {
      ImportedCharts(EnsureRepo(t, repo), repo, Upserted(charts, statements));
    }
  }

  lemma SyncedRows(t: Tables, repo: RepoKey, charts: seq<Chart>)
    requires KeysHold(t)
    ensures var r := SyncTables(t, repo, charts);
            OthersUntouched(t, r, repo) && LastChecksum(r, repo) == LastChecksum(t, repo) && ChartsAre(r, repo, charts)
  {
    SyncIsExact(t, repo, charts);
    var r := SyncTables(t, repo, charts);
    forall k: ChartKey | k.repo == repo ensures Get(r.charts, k) == SyncedChart(r, repo, charts, k) {
      SyncSetsChart(t, repo, charts, k);
    }
  }

  lemma SetChecksumKeeps(t: Tables, repo: RepoKey, charts: seq<Chart>, checksum: string, now: string)
    requires KeysHold(t) && ChartsAre(t, repo, charts)
    ensures var r := SetChecksum(t, repo, checksum, now);
            && KeysHold(r) && OthersUntouched(t, r, repo) && ChartsAre(r, repo, charts)
            && Get(r.repos, repo) == Some(RepoRow(Some(checksum), Some(now)))
  {
    var r := SetChecksum(t, repo, checksum, now);
    forall k: ChartKey | k.repo == repo ensures Get(r.charts, k) == SyncedChart(r, repo, charts, k) {
      assert Get(t.charts, k) == SyncedChart(t, repo, charts, k);
    }
  }

  lemma OthersStayUntouched(t: Tables, u: Tables, r: Tables, repo: RepoKey)
    requires OthersUntouched(t, u, repo) && OthersUntouched(u, r, repo)
    ensures OthersUntouched(t, r, repo)
  {
  }

  /** The tables after the first i passes of a run, and the statements it still needs. */
  function PassesDone(t: Tables, repo: RepoKey, src: Source, last: string, i: nat): Tables
    requires CanComplete(src, last)
  {
    var passes := if last == "" then 2 else 1;
    if i == 0 then t
    else if i < passes then FirstPass(t, repo, src, last)
    else Pass(FirstPass(t, repo, src, last), repo, src.fetch(false), Charts(src, false).value)
  }

  function StatementsLeft(src: Source, last: string, i: nat): nat
    requires CanComplete(src, last)
  {
    var passes := if last == "" then 2 else 1;
    if i == 0 then RunStatements(src, last)
    else if i < passes then PassStatements(Charts(src, false).value) + 1
    else 1
  }

  /** The loop over the passes: a shallow one first if no checksum was read, for early feedback. */
  method RunPasses(db: PostgresAssetManager, repo: RepoKey, src: Source, last: string) returns (ok: bool)
    requires db.Valid() && WellFormed(src)
    modifies db
    ensures db.Valid() && OthersUntouched(old(db.Now()), db.Now(), repo)
    ensures LastChecksum(db.Now(), repo) == LastChecksum(old(db.Now()), repo)
    ensures ok <==> AfterPasses(repo, src, last, Db(old(db.Now()), old(db.answers))).Some?
    ensures ok ==> Some(Db(db.Now(), db.answers)) == AfterPasses(repo, src, last, Db(old(db.Now()), old(db.answers)))
    ensures !ok ==> db.Now() == LeftByPasses(repo, src, last, Db(old(db.Now()), old(db.answers)))
    ensures ok ==> HasCharts(src, false) && (last == "" ==> HasCharts(src, true))
    ensures ok ==> ChartsAre(db.Now(), repo, Charts(src, false).value)
    ensures CanComplete(src, last) && Streak(old(db.answers)) >= RunStatements(src, last) ==>
      ok && Streak(db.answers) > 0
      && db.Now() == Pass(FirstPass(old(db.Now()), repo, src, last), repo, src.fetch(false), Charts(src, false).value)
  {
    ghost var before, answers, start := db.Now(), db.answers, Db(db.Now(), db.answers);
    var passes := if last == "" then [true, false] else [false];
    for i := 0 to |passes|
      invariant db.Valid() && OthersUntouched(before, db.Now(), repo)
      invariant LastChecksum(db.Now(), repo) == LastChecksum(before, repo)
      invariant i == 0 ==> Db(db.Now(), db.answers) == start
      invariant 0 < i < |passes| ==> Some(Db(db.Now(), db.answers)) == AfterPass(repo, src, true, start)
      invariant i == |passes| ==> Some(Db(db.Now(), db.answers)) == AfterPasses(repo, src, last, start)
      invariant i == |passes| ==> HasCharts(src, false) && ChartsAre(db.Now(), repo, Charts(src, false).value)
      invariant i > 0 && last == "" ==> HasCharts(src, true)
      invariant CanComplete(src, last) && Streak(answers) >= RunStatements(src, last) ==>
        db.Now() == PassesDone(before, repo, src, last, i) && Streak(db.answers) >= StatementsLeft(src, last, i)
    {
      ghost var u := db.Now();
      ok := RunPass(db, repo, src, passes[i]);
      if !ok {
        return;
      }
      OthersStayUntouched(before, u, db.Now(), repo);
    }
    return true;
  }

  /** The body of the sync command after the repository has been set up.  Fatal ends the process.  With `last` the
      checksum it reads, a run skips exactly on an equal checksum, and it completes exactly when it has charts to sync
      and the statements of Sync and of the checksum go through, whatever happens to files; with all statements going
      through it leaves the tables of its passes.  A checksum query that fails reads as the empty string. */
  method Sync(db: PostgresAssetManager, repo: RepoKey, src: Source) returns (outcome: Outcome)
    requires db.Valid() && WellFormed(src)
    modifies db
    ensures db.Valid() && RunDoes(repo, src, Db(old(db.Now()), old(db.answers)), outcome, db.Now())
    ensures var last := ReadChecksum(old(db.Now()), repo, old(db.answers));
            && (outcome == Skipped <==> src.checksum == Some(last))
            && (outcome == Completed ==> CanComplete(src, last))
            && (outcome == Completed <==> AfterRun(repo, src, Db(old(db.Now()), old(db.answers))).Some?)
            && (CanComplete(src, last) && Streak(Later(old(db.answers), 1)) >= RunStatements(src, last) ==>
                  outcome == Completed && db.Now() == CompletedTables(old(db.Now()), repo, src, last))
  {
    ghost var before := db.Now();
    if src.checksum.None? {
      return Fatal;
    }
    var last := db.GetLastChecksum(repo);
    if last == src.checksum.value {
      return Skipped;
    }
    var ok := RunPasses(db, repo, src, last);
    if !ok {
      return Fatal;
    }
    ghost var synced := db.Now();
    ok := db.UpdateLastCheck(repo, src.checksum.value, src.now);
    if !ok {
      return Fatal;
    }
    SetChecksumKeeps(synced, repo, Charts(src, false).value, src.checksum.value, src.now);
    OthersStayUntouched(before, synced, db.Now(), repo);
    return Completed;
  }

  // ----- The files of other repositories -----

  lemma {:induction false} FetchedAllKeepsOthers(repo: RepoKey, fetch: Fetch, db: Db, jobs: seq<FileJob>)
    requires FilesInPlace(db.tables) && '/' !in repo.name
    ensures var r := FetchedAll(repo, fetch, db, jobs).tables;
            FilesInPlace(r) && OtherFilesKept(db.tables, r, repo)
  {
    if jobs != [] {
      var last := jobs[|jobs| - 1];
      FetchedAllKeepsOthers(repo, fetch, db, jobs[..|jobs| - 1]);
      if fetch(last).Some? {
        StoreKeepsOthers(repo, FetchedAll(repo, fetch, db, jobs[..|jobs| - 1]).tables, last, fetch(last).value);
      }
    }
  }

  lemma {:induction false} FetchedAllKeepsKeys(repo: RepoKey, fetch: Fetch, db: Db, jobs: seq<FileJob>)
    requires KeysHold(db.tables)
    ensures var r := FetchedAll(repo, fetch, db, jobs).tables;
            KeysHold(r) && r.charts == db.tables.charts && r.repos == db.tables.repos
  {
    if jobs != [] {
      var last, u := jobs[|jobs| - 1], FetchedAll(repo, fetch, db, jobs[..|jobs| - 1]).tables;
      FetchedAllKeepsKeys(repo, fetch, db, jobs[..|jobs| - 1]);
      if fetch(last).Some? {
        InsertKeepsKeys(u, repo, ChartId(repo, last.name), FilesId(repo, last), last.version.digest, fetch(last).value);
      }
    }
  }

  lemma PassKeepsOtherFiles(repo: RepoKey, src: Source, latestOnly: bool, db: Db)
    requires KeysHold(db.tables) && FilesInPlace(db.tables) && '/' !in repo.name
    requires AfterPass(repo, src, latestOnly, db).Some?
    ensures var r := AfterPass(repo, src, latestOnly, db).value.tables;
            KeysHold(r) && FilesInPlace(r) && OtherFilesKept(db.tables, r, repo)
  {
    var charts := Charts(src, latestOnly).value;
    var synced := Db(SyncTables(db.tables, repo, charts), Later(db.answers, |charts| + 2));
    SyncIsExact(db.tables, repo, charts);
    SyncKeepsOtherFiles(db.tables, repo, charts);
    FetchedAllKeepsKeys(repo, src.fetch(latestOnly), synced, FileJobs(charts));
    FetchedAllKeepsOthers(repo, src.fetch(latestOnly), synced, FileJobs(charts));
  }

  lemma FailedPassKeepsOtherFiles(repo: RepoKey, src: Source, latestOnly: bool, db: Db)
    requires KeysHold(db.tables)
    ensures LeftByPass(repo, src, latestOnly, db).files == db.tables.files
  {
    match Charts(src, latestOnly)
    case None =>
    case Some(charts) =>
      if Streak(db.answers) > 0 {
        PartialSyncIsExact(db.tables, repo, charts, Streak(db.answers));
      }
  }

  lemma PassesKeepOtherFiles(repo: RepoKey, src: Source, last: string, db: Db)
    requires KeysHold(db.tables) && FilesInPlace(db.tables) && '/' !in repo.name
    ensures var after := AfterPasses(repo, src, last, db);
            var r := if after.Some? then after.value.tables else LeftByPasses(repo, src, last, db);
            FilesInPlace(r) && OtherFilesKept(db.tables, r, repo)
  {
    var first := if last == "" then AfterPass(repo, src, true, db) else Some(db);
    if first.None? {
      FailedPassKeepsOtherFiles(repo, src, true, db);
    } else {
      if last == "" {
        PassKeepsOtherFiles(repo, src, true, db);
      }
      if AfterPass(repo, src, false, first.value).Some? {
        PassKeepsOtherFiles(repo, src, false, first.value);
      } else {
        FailedPassKeepsOtherFiles(repo, src, false, first.value);
      }
    }
  }

  /** However a run ends, whatever is fetched and whichever statements fail, every file row of every other repository is
      as it was: with the rows in place, and names of repositories without a slash. */
  lemma RunKeepsOtherFiles(repo: RepoKey, src: Source, db: Db, outcome: Outcome, r: Tables)
    requires KeysHold(db.tables) && FilesInPlace(db.tables) && '/' !in repo.name
    requires RunDoes(repo, src, db, outcome, r)
    ensures FilesInPlace(r) && OtherFilesKept(db.tables, r, repo)
  {
    var last, next := ReadChecksum(db.tables, repo, db.answers), Db(db.tables, Later(db.answers, 1));
    PassesKeepOtherFiles(repo, src, last, next);
  }
}
