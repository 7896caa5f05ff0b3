/** What the two phases of an import leave open: whether icons are finished before files, and whether jobs that share
    a file id can leave tables that no sequential import leaves. */
module FileRaces {
  import opened Wrappers
  import opened Sequences
  import opened Text
  import opened Catalogue
  import opened FileImport
  import opened FilePool

  // ----- Icons before files -----

  lemma {:induction false} RunThenRun(s: Setup, p: Pool, steps: seq<Step>, m: Pool, rest: seq<Step>, q: Pool)
    requires IsRun(s, p, steps, m) && IsRun(s, m, rest, q)
    ensures IsRun(s, p, steps + rest, q)
    decreases |steps|
  {
    if steps == [] {
      assert steps + rest == rest;
    } else {
      RunThenRun(s, Next(s, p, steps[0]), steps[1..], m, rest, q);
      assert (steps + rest)[1..] == steps[1..] + rest;
    }
  }

  /** Some schedule leads to this pool. */
  ghost predicate CanReach(s: Setup, t: Tables, q: Pool) {
    exists steps :: IsRun(s, Start(s, t), steps, q)
  }

  lemma ReachStart(s: Setup, t: Tables)
    ensures CanReach(s, t, Start(s, t))
  {
    assert IsRun(s, Start(s, t), [], Start(s, t));
  }

  lemma ReachNext(s: Setup, t: Tables, p: Pool, step: Step)
    requires CanReach(s, t, p) && Enabled(s, p, step)
    ensures CanReach(s, t, Next(s, p, step))
  {
    var steps :| IsRun(s, Start(s, t), steps, p);
    var q := Next(s, p, step);
    assert IsRun(s, q, [], q) && [step][1..] == [];
    RunThenRun(s, Start(s, t), steps, p, [step], q);
  }

  /** The pool after the first k icons have been imported and nothing else has happened. */
  ghost function AfterIcons(s: Setup, t: Tables, k: nat): Pool
    requires k <= |s.charts|
  {
    Start(s, t).(unsentIcons := s.charts[k..], takenIcons := s.charts[..k])
  }

  // One more icon, handed to worker w.
  lemma NextIcon(s: Setup, t: Tables, k: nat, w: nat) returns (p: Pool)
    requires s.Valid() && w < s.workers && k < |s.charts| && CanReach(s, t, AfterIcons(s, t, k))
    ensures CanReach(s, t, p)
    ensures p == AfterIcons(s, t, k + 1).(workers := AfterIcons(s, t, k).workers[w := Icon(s.charts[k])])
  {
    p := AfterIcons(s, t, k);
    ReachNext(s, t, p, SendIcon);
    p := Next(s, p, SendIcon);
    ReachNext(s, t, p, TakeIcon(w));
    p := Next(s, p, TakeIcon(w));
    assert s.charts[..k + 1] == s.charts[..k] + [s.charts[k]] && s.charts[k..][1..] == s.charts[k + 1..];
  }

  lemma {:induction false} FirstIconsByOne(s: Setup, t: Tables, k: nat)
    requires s.Valid() && s.workers >= 2 && k <= |s.charts|
    ensures CanReach(s, t, AfterIcons(s, t, k))
  {
    if k == 0 {
      assert s.charts[0..] == s.charts && s.charts[..0] == [];
      ReachStart(s, t);
    } else {
      FirstIconsByOne(s, t, k - 1);
      var p := NextIcon(s, t, k - 1, 1);
      ReachNext(s, t, p, FinishIcon(1));
      assert Next(s, p, FinishIcon(1)).workers == AfterIcons(s, t, k).workers;
    }
  }

  /** Some worker holds a file job while another holds an icon. */
  ghost predicate Overlaps(p: Pool) {
    exists v, w :: 0 <= v < |p.workers| && 0 <= w < |p.workers| && p.workers[v].Icon? && JobOf(p.workers[w]).Some?
  }

  // Every icon has been handed out and an idle worker goes on to the files while another still has its icon.
  lemma OnToFiles(s: Setup, t: Tables, p: Pool, v: nat, w: nat) returns (q: Pool)
    requires s.Valid() && CanReach(s, t, p) && !p.panicked && p.caller.FeedingIcons? && p.unsentIcons == []
      && p.iconQueue == []
    requires !p.iconsClosed && !p.filesClosed && p.unsentFiles != [] && p.fileQueue == []
    requires v < |p.workers| && w < |p.workers| && v != w && p.workers[v].Icon? && p.workers[w].AtIcons?
    ensures CanReach(s, t, q) && Overlaps(q)
  {
    q := p;
    ReachNext(s, t, q, CloseIcons);
    q := Next(s, q, CloseIcons);
    ReachNext(s, t, q, SendFile);
    q := Next(s, q, SendFile);
    ReachNext(s, t, q, LeaveIcons(w));
    q := Next(s, q, LeaveIcons(w));
    ReachNext(s, t, q, TakeFile(w));
    q := Next(s, q, TakeFile(w));
    assert q.workers[v].Icon? && JobOf(q.workers[w]).Some?;
  }

  // Worker 1 imports every icon but the last, worker 0 takes that one, and worker 1 goes on to the files.
  lemma LastIconLate(s: Setup, t: Tables) returns (q: Pool)
    requires s.Valid() && s.workers >= 2 && s.charts != []
    ensures CanReach(s, t, q) && Overlaps(q)
  {
    var last := |s.charts| - 1;
    assert s.charts[0] in s.charts && FileJobs(s.charts) != [] by {
      assert NewestJob(s.charts[0]) != [];
    }
    FirstIconsByOne(s, t, last);
    var p := NextIcon(s, t, last, 0);
    q := OnToFiles(s, t, p, 0, 1);
  }

  lemma OnlyOneOrNone(s: Setup, t: Tables, q: Pool)
    requires s.Valid() && (s.workers == 1 || s.charts == []) && CanReach(s, t, q)
    ensures !Overlaps(q)
  {
    var steps :| IsRun(s, Start(s, t), steps, q);
    StartFlows(s, t);
    RunFlows(s, Start(s, t), steps, q);
    TakenInOrder(s, q);
  }

  /** The icons are handed out before the files.  They are also imported before the files, in every schedule, exactly
      with a single worker or without charts. */
  lemma IconsFirstIff(s: Setup, t: Tables)
    requires s.Valid()
    ensures s.workers == 1 || s.charts == [] <==> forall q :: CanReach(s, t, q) ==> !Overlaps(q)
  {
    if s.workers == 1 || s.charts == [] {
      forall q | CanReach(s, t, q) ensures !Overlaps(q) {
        OnlyOneOrNone(s, t, q);
      }
    } else {
      var q := LastIconLate(s, t);
      assert CanReach(s, t, q) && Overlaps(q);
    }
  }

  // ----- Two jobs of one file id -----

  /** The pool while worker 1 imports files: the first k jobs have been taken, worker 0 is at `first`, and but for
      those two all is at rest. */
  ghost function FilesAt(s: Setup, t: Tables, k: nat, first: Worker, u: Tables): Pool
    requires k <= |FileJobs(s.charts)| && s.workers >= 2
  {
    var start := Start(s, t);
    start.(caller := FeedingFiles, unsentIcons := [], iconsClosed := true, takenIcons := s.charts,
           unsentFiles := FileJobs(s.charts)[k..], takenFiles := FileJobs(s.charts)[..k],
           workers := start.workers[0 := first][1 := AtFiles], tables := u)
  }

  lemma ReachFiles(s: Setup, t: Tables)
    requires s.Valid() && s.workers >= 2
    ensures CanReach(s, t, FilesAt(s, t, 0, AtFiles, t))
  {
    FirstIconsByOne(s, t, |s.charts|);
    var p := AfterIcons(s, t, |s.charts|);
    ReachNext(s, t, p, CloseIcons);
    p := Next(s, p, CloseIcons);
    ReachNext(s, t, p, LeaveIcons(0));
    p := Next(s, p, LeaveIcons(0));
    ReachNext(s, t, p, LeaveIcons(1));
    p := Next(s, p, LeaveIcons(1));
    assert s.charts[|s.charts|..] == [] && s.charts[..|s.charts|] == s.charts;
    assert FileJobs(s.charts)[0..] == FileJobs(s.charts) && FileJobs(s.charts)[..0] == [];
    assert p == FilesAt(s, t, 0, AtFiles, t);
  }

  // The next job goes to worker w, who looks for its files.
  lemma NextFile(s: Setup, t: Tables, k: nat, first: Worker, u: Tables, w: nat) returns (p: Pool)
    requires s.Valid() && s.workers >= 2 && k < |FileJobs(s.charts)| && w < 2
    requires CanReach(s, t, FilesAt(s, t, k, first, u)) && (w == 0 ==> first.AtFiles?)
    ensures CanReach(s, t, p)
    ensures var q := FilesAt(s, t, k + 1, first, u);
            p == q.(workers := q.workers[w := Checked(s, u, FileJobs(s.charts)[k])])
  {
    var jobs := FileJobs(s.charts);
    p := FilesAt(s, t, k, first, u);
    ReachNext(s, t, p, SendFile);
    p := Next(s, p, SendFile);
    ReachNext(s, t, p, TakeFile(w));
    p := Next(s, p, TakeFile(w));
    ReachNext(s, t, p, Check(w));
    p := Next(s, p, Check(w));
    assert jobs[..k + 1] == jobs[..k] + [jobs[k]] && jobs[k..][1..] == jobs[k + 1..];
    assert p.workers == FilesAt(s, t, k + 1, first, u).workers[w := Checked(s, u, jobs[k])];
  }

  lemma FileByOne(s: Setup, t: Tables, k: nat, first: Worker, u: Tables)
    requires s.Valid() && s.workers >= 2 && k < |FileJobs(s.charts)| && CanReach(s, t, FilesAt(s, t, k, first, u))
    ensures CanReach(s, t, FilesAt(s, t, k + 1, first, ImportOne(s.repo, s.fetch, u, FileJobs(s.charts)[k])))
  {
    var job := FileJobs(s.charts)[k];
    var p := NextFile(s, t, k, first, u, 1);
    if Checked(s, u, job).Storing? {
      ReachNext(s, t, p, Insert(1));
      p := Next(s, p, Insert(1));
    }
    assert p.workers == FilesAt(s, t, k + 1, first, u).workers;
    assert p == FilesAt(s, t, k + 1, first, ImportOne(s.repo, s.fetch, u, job));
  }

  lemma ImportUpTo(repo: RepoKey, fetch: Fetch, u: Tables, jobs: seq<FileJob>, k: nat, n: nat)
    requires k < n <= |jobs|
    ensures ImportAll(repo, fetch, u, jobs[k..n])
      == ImportOne(repo, fetch, ImportAll(repo, fetch, u, jobs[k..n - 1]), jobs[n - 1])
  {
    assert jobs[k..n] == jobs[k..n - 1] + [jobs[n - 1]];
    ImportAllSnoc(repo, fetch, u, jobs[k..n - 1], jobs[n - 1]);
  }

  lemma {:induction false} FilesUpTo(s: Setup, t: Tables, k: nat, n: nat, first: Worker, u: Tables)
    requires s.Valid() && s.workers >= 2 && k <= n <= |FileJobs(s.charts)| && CanReach(s, t, FilesAt(s, t, k, first, u))
    ensures CanReach(s, t, FilesAt(s, t, n, first, ImportAll(s.repo, s.fetch, u, FileJobs(s.charts)[k..n])))
  {
    var jobs := FileJobs(s.charts);
    if k < n {
      FilesUpTo(s, t, k, n - 1, first, u);
      FileByOne(s, t, n - 1, first, ImportAll(s.repo, s.fetch, u, jobs[k..n - 1]));
      ImportUpTo(s.repo, s.fetch, u, jobs, k, n);
    } else {
      assert jobs[k..n] == [];
    }
  }

  // Worker 0 is about to store its job when worker 1 has looked for the next: both store.
  lemma BothStore(s: Setup, t: Tables, k: nat, i: FileJob, c: Content, u: Tables)
    requires s.Valid() && s.workers >= 2 && k < |FileJobs(s.charts)|
    requires CanReach(s, t, FilesAt(s, t, k, Storing(i, c), u)) && Checked(s, u, FileJobs(s.charts)[k]).Storing?
    ensures var j := FileJobs(s.charts)[k];
            CanReach(s, t, FilesAt(s, t, k + 1, AtFiles, Store(s.repo, Store(s.repo, u, i, c), j, s.fetch(j).value)))
  {
    var j := FileJobs(s.charts)[k];
    var p := NextFile(s, t, k, Storing(i, c), u, 1);
    ReachNext(s, t, p, Insert(0));
    p := Next(s, p, Insert(0));
    ReachNext(s, t, p, Insert(1));
    p := Next(s, p, Insert(1));
    assert p.workers == FilesAt(s, t, k + 1, AtFiles, u).workers;
    assert p == FilesAt(s, t, k + 1, AtFiles, Store(s.repo, Store(s.repo, u, i, c), j, s.fetch(j).value));
  }

  /** Jobs a and b share a file id that is free and that no other job has, and the digest; they bring different
      files. */
  ghost predicate Collide(s: Setup, t: Tables, a: nat, b: nat) {
    var jobs := FileJobs(s.charts);
    && a < b < |jobs|
    && Key(s.repo, jobs[a]) == Key(s.repo, jobs[b]) && Key(s.repo, jobs[a]) !in t.files
    && (forall k :: 0 <= k < |jobs| && Key(s.repo, jobs[k]) == Key(s.repo, jobs[a]) ==> k == a || k == b)
    && jobs[a].version.digest == jobs[b].version.digest
    && s.fetch(jobs[a]).Some? && s.fetch(jobs[b]).Some? && s.fetch(jobs[a]) != s.fetch(jobs[b])
  }

  ghost predicate ChartsThere(s: Setup, t: Tables) {
    s.repo in t.repos && forall j :: j in FileJobs(s.charts) ==> ChartKey(s.repo, ChartId(s.repo, j.name)) in t.charts
  }

  lemma {:induction false} OthersLeaveRow(repo: RepoKey, fetch: Fetch, t: Tables, jobs: seq<FileJob>, f: FileKey)
    requires forall j :: j in jobs ==> Key(repo, j) != f
    ensures var r := ImportAll(repo, fetch, t, jobs);
            Get(r.files, f) == Get(t.files, f) && r.repos == t.repos && r.charts == t.charts
  {
    if jobs != [] {
      OthersLeaveRow(repo, fetch, t, jobs[..|jobs| - 1], f);
      ImportIsLocal(repo, fetch, ImportAll(repo, fetch, t, jobs[..|jobs| - 1]), jobs[|jobs| - 1]);
    }
  }

  // Worker 0 takes the first of the two and holds it back while worker 1 imports all jobs up to the second.
  lemma HeldBackReached(s: Setup, t: Tables, a: nat, b: nat) returns (u: Tables)
    requires s.Valid() && s.workers >= 2 && Collide(s, t, a, b)
    ensures var i := FileJobs(s.charts)[a];
            && CanReach(s, t, FilesAt(s, t, b, Storing(i, s.fetch(i).value), u))
            && Row(s.repo, u, i).None? && u.repos == t.repos && u.charts == t.charts
  {
    var jobs := FileJobs(s.charts);
    var i := jobs[a];
    ReachFiles(s, t);
    FilesUpTo(s, t, 0, a, AtFiles, t);
    var v := ImportAll(s.repo, s.fetch, t, jobs[0..a]);
    OthersLeaveRow(s.repo, s.fetch, t, jobs[0..a], Key(s.repo, i));
    var p := NextFile(s, t, a, AtFiles, v, 0);
    assert p == FilesAt(s, t, a + 1, Storing(i, s.fetch(i).value), v);
    FilesUpTo(s, t, a + 1, b, Storing(i, s.fetch(i).value), v);
    u := ImportAll(s.repo, s.fetch, v, jobs[a + 1..b]);
    OthersLeaveRow(s.repo, s.fetch, v, jobs[a + 1..b], Key(s.repo, i));
  }

  lemma BothStoredRow(repo: RepoKey, u: Tables, i: FileJob, c: Content, j: FileJob, d: Content)
    requires Key(repo, i) == Key(repo, j) && i.version.digest == j.version.digest && Row(repo, u, i).None?
    requires repo in u.repos && ChartKey(repo, ChartId(repo, i.name)) in u.charts
    ensures Row(repo, Store(repo, Store(repo, u, i, c), j, d), i)
            == Some(FileRow(repo, ChartId(repo, i.name), i.version.digest, d))
  {
  }

  lemma RaceReached(s: Setup, t: Tables, a: nat, b: nat) returns (r: Tables)
    requires s.Valid() && s.workers >= 2 && ChartsThere(s, t) && Collide(s, t, a, b)
    ensures CanReach(s, t, FilesAt(s, t, |FileJobs(s.charts)|, AtFiles, r))
    ensures var jobs := FileJobs(s.charts);
            Row(s.repo, r, jobs[a]) == Some(FileRow(s.repo, ChartId(s.repo, jobs[a].name), jobs[a].version.digest,
                                                    s.fetch(jobs[b]).value))
  {
    var jobs := FileJobs(s.charts);
    var i, j := jobs[a], jobs[b];
    var u := HeldBackReached(s, t, a, b);
    BothStore(s, t, b, i, s.fetch(i).value, u);
    BothStoredRow(s.repo, u, i, s.fetch(i).value, j, s.fetch(j).value);
    var w := Store(s.repo, Store(s.repo, u, i, s.fetch(i).value), j, s.fetch(j).value);
    FilesUpTo(s, t, b + 1, |jobs|, AtFiles, w);
    r := ImportAll(s.repo, s.fetch, w, jobs[b + 1..|jobs|]);
    OthersLeaveRow(s.repo, s.fetch, w, jobs[b + 1..|jobs|], Key(s.repo, i));
  }

  // Of two such jobs a sequential import in any order stores the one that comes first.
  lemma {:induction false} FirstOneStored(s: Setup, t: Tables, order: seq<FileJob>, i: FileJob, j: FileJob)
    requires ChartsThere(s, t) && i in FileJobs(s.charts) && j in FileJobs(s.charts)
    requires Key(s.repo, i) == Key(s.repo, j) && Key(s.repo, i) !in t.files && i.version.digest == j.version.digest
    requires s.fetch(i).Some? && s.fetch(j).Some?
    requires forall k :: k in order && Key(s.repo, k) == Key(s.repo, i) ==> k == i || k == j
    ensures var r, d := ImportAll(s.repo, s.fetch, t, order), i.version.digest;
            && r.repos == t.repos && r.charts == t.charts
            && (Row(s.repo, r, i).Some? ==>
                  || Row(s.repo, r, i) == Some(FileRow(s.repo, ChartId(s.repo, i.name), d, s.fetch(i).value))
                  || Row(s.repo, r, i) == Some(FileRow(s.repo, ChartId(s.repo, j.name), d, s.fetch(j).value)))
  {
    if order != [] {
      var init, last := order[..|order| - 1], order[|order| - 1];
      FirstOneStored(s, t, init, i, j);
      ImportIsLocal(s.repo, s.fetch, ImportAll(s.repo, s.fetch, t, init), last);
    }
  }

  lemma SameChartSameJob(repo: RepoKey, i: FileJob, j: FileJob)
    requires Key(repo, i) == Key(repo, j) && i.version.digest == j.version.digest
    requires ChartId(repo, i.name) == ChartId(repo, j.name)
    ensures i == j
  {
    SamePrefix(repo.name + "/", i.name, j.name);
    SamePrefix(ChartId(repo, i.name) + "-", i.version.version, j.version.version);
  }

  // Once no file job is left the tables stay.
  lemma {:induction false} NoMoreFiles(s: Setup, p: Pool, steps: seq<Step>, q: Pool)
    requires IsRun(s, p, steps, q) && p.fileQueue == [] && p.unsentFiles == []
    requires forall w :: 0 <= w < |p.workers| ==> JobOf(p.workers[w]).None?
    ensures q.tables == p.tables
    decreases |steps|
  {
    if steps != [] {
      var m := Next(s, p, steps[0]);
      if !IsCallerStep(steps[0]) {
        var (w, x) := Moved(s, p, steps[0]);
        assert JobOf(p.workers[w]).None? && JobOf(x).None?;
      }
      NoMoreFiles(s, m, steps[1..], q);
    }
  }

  lemma CompletesFrom(s: Setup, t: Tables, p: Pool) returns (steps: seq<Step>, q: Pool)
    requires CanReach(s, t, p)
    ensures IsRun(s, Start(s, t), steps, q) && Stuck(s, q)
    ensures p.fileQueue == [] && p.unsentFiles == []
            && (forall w :: 0 <= w < |p.workers| ==> JobOf(p.workers[w]).None?) ==>
              q.tables == p.tables
  {
    var before :| IsRun(s, Start(s, t), before, p);
    StartFlows(s, t);
    RunFlows(s, Start(s, t), before, p);
    var rest;
    rest, q := CanFinish(s, p);
    if p.fileQueue == [] && p.unsentFiles == [] && forall w :: 0 <= w < |p.workers| ==> JobOf(p.workers[w]).None? {
      NoMoreFiles(s, p, rest, q);
    }
    steps := before + rest;
    RunThenRun(s, Start(s, t), before, p, rest, q);
  }

  /** Two workers can leave tables that the sequential import leaves in no order: one job's chart with the other's
      files. */
  lemma CollisionRaces(s: Setup, t: Tables, a: nat, b: nat) returns (steps: seq<Step>, q: Pool)
    requires s.Valid() && s.workers >= 2 && ChartsThere(s, t) && Collide(s, t, a, b)
    ensures IsRun(s, Start(s, t), steps, q) && Stuck(s, q) && !OfSomeOrder(s, t, q.tables)
  {
    var jobs := FileJobs(s.charts);
    var r := RaceReached(s, t, a, b);
    steps, q := CompletesFrom(s, t, FilesAt(s, t, |jobs|, AtFiles, r));
    if ChartId(s.repo, jobs[a].name) == ChartId(s.repo, jobs[b].name) {
      SameChartSameJob(s.repo, jobs[a], jobs[b]);
    }
    forall order | multiset(order) == multiset(jobs) ensures q.tables != ImportAll(s.repo, s.fetch, t, order) {
      SameMembers(order, jobs);
      FirstOneStored(s, t, order, jobs[a], jobs[b]);
    }
  }

  /** At most two jobs share a file id, and an id that is shared is free. */
  ghost predicate PairsOnFreeIds(s: Setup, t: Tables) {
    var jobs := FileJobs(s.charts);
    forall a, b :: 0 <= a < b < |jobs| && Key(s.repo, jobs[a]) == Key(s.repo, jobs[b]) ==>
      Key(s.repo, jobs[a]) !in t.files
      && forall k :: 0 <= k < |jobs| && Key(s.repo, jobs[k]) == Key(s.repo, jobs[a]) ==> k == a || k == b
  }

  lemma RacingPair(s: Setup, t: Tables) returns (a: nat, b: nat)
    requires PairsOnFreeIds(s, t) && !s.DigestsTell()
    ensures Collide(s, t, a, b)
  {
    var jobs := FileJobs(s.charts);
    var i, j :| i in jobs && j in jobs && Key(s.repo, i) == Key(s.repo, j) && i.version.digest == j.version.digest
                && s.fetch(i).Some? && s.fetch(j).Some? && s.fetch(i) != s.fetch(j);
    var x: nat :| x < |jobs| && jobs[x] == i;
    var y: nat :| y < |jobs| && jobs[y] == j;
    a, b := if x < y then x else y, if x < y then y else x;
  }

  ghost predicate EveryScheduleOfSomeOrder(s: Setup, t: Tables) {
    forall steps, q :: IsRun(s, Start(s, t), steps, q) && Stuck(s, q) ==> OfSomeOrder(s, t, q.tables)
  }

  /** Where file ids collide in pairs, every schedule leaves the tables of a sequential import in some order exactly
      with one worker, or if the jobs that share id and digest bring the same files. */
  lemma SomeOrderIff(s: Setup, t: Tables)
    requires s.Valid() && ChartsThere(s, t) && PairsOnFreeIds(s, t)
    ensures s.NoRace() <==> EveryScheduleOfSomeOrder(s, t)
  {
    if s.NoRace() {
      forall steps, q | IsRun(s, Start(s, t), steps, q) && Stuck(s, q) ensures OfSomeOrder(s, t, q.tables) {
        EveryScheduleIsSomeOrder(s, t, steps, q);
      }
    } else {
      var a, b := RacingPair(s, t);
      var steps, q := CollisionRaces(s, t, a, b);
    }
  }
}
