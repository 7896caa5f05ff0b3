/** The goroutines of fetchFiles as a transition system: the caller feeds and closes the icon channel, then the
    file channel, then waits; each worker drains the icons before it turns to the files. */
module FilePool {
  import opened Wrappers
  import opened Sequences
  import opened Catalogue
  import opened FileImport

  datatype Setup = Setup(repo: RepoKey, fetch: Fetch, charts: seq<Chart>, workers: nat, capacity: nat) {
    ghost predicate Valid() {
      workers > 0 && capacity > 0 && HaveVersions(charts)
    }

    /** No two jobs share a file id: what the files table needs, and the flow of the jobs does not. */
    ghost predicate IdsApart() {
      DistinctKeys(repo, FileJobs(charts))
    }

    /** Jobs that share file id and digest bring the same files. */
    ghost predicate DigestsTell() {
      forall i, j :: i in FileJobs(charts) && j in FileJobs(charts) && Key(repo, i) == Key(repo, j)
                     && i.version.digest == j.version.digest && fetch(i).Some? && fetch(j).Some? ==>
        fetch(i) == fetch(j)
    }

    /** No job can overtake another with its id and digest and other files. */
    ghost predicate NoRace() {
      workers == 1 || DigestsTell()
    }
  }

  datatype Caller = FeedingIcons | FeedingFiles | Waiting | Returned

  /** Checking covers filesExist and the fetch; Storing is the insert. */
  datatype Worker = AtIcons | Icon(chart: Chart) | AtFiles | Checking(job: FileJob)
                  | Storing(job: FileJob, content: Content) | Leaving | Gone

  /** `takenIcons` and `takenFiles` log what the workers have received, in order. */
  datatype Pool = Pool(
    caller: Caller,
    unsentIcons: seq<Chart>, iconQueue: seq<Chart>, iconsClosed: bool, takenIcons: seq<Chart>,
    unsentFiles: seq<FileJob>, fileQueue: seq<FileJob>, filesClosed: bool, takenFiles: seq<FileJob>,
    workers: seq<Worker>, waiting: int, tables: Tables, panicked: bool)

  datatype Step =
    | SendIcon | CloseIcons | SendFile | CloseFiles | WaitReturns
    | TakeIcon(w: nat) | FinishIcon(w: nat) | LeaveIcons(w: nat)
    | TakeFile(w: nat) | Check(w: nat) | Insert(w: nat) | LeaveFiles(w: nat) | SignalDone(w: nat)

  ghost function Start(s: Setup, t: Tables): Pool {
    Pool(FeedingIcons, s.charts, [], false, [], FileJobs(s.charts), [], false, [],
         seq(s.workers, _ => AtIcons), s.workers, t, false)
  }

  ghost predicate Enabled(s: Setup, p: Pool, step: Step) {
    && !p.panicked
    && match step
       case SendIcon => p.caller.FeedingIcons? && p.unsentIcons != [] && (p.iconsClosed || |p.iconQueue| < s.capacity)
       case CloseIcons => p.caller.FeedingIcons? && p.unsentIcons == []
       case SendFile => p.caller.FeedingFiles? && p.unsentFiles != [] && (p.filesClosed || |p.fileQueue| < s.capacity)
       case CloseFiles => p.caller.FeedingFiles? && p.unsentFiles == []
       case WaitReturns => p.caller.Waiting? && p.waiting == 0
       case TakeIcon(w) => w < |p.workers| && p.workers[w].AtIcons? && p.iconQueue != []
       case FinishIcon(w) => w < |p.workers| && p.workers[w].Icon?
       case LeaveIcons(w) => w < |p.workers| && p.workers[w].AtIcons? && p.iconQueue == [] && p.iconsClosed
       case TakeFile(w) => w < |p.workers| && p.workers[w].AtFiles? && p.fileQueue != []
       case Check(w) => w < |p.workers| && p.workers[w].Checking?
       case Insert(w) => w < |p.workers| && p.workers[w].Storing?
       case LeaveFiles(w) => w < |p.workers| && p.workers[w].AtFiles? && p.fileQueue == [] && p.filesClosed
       case SignalDone(w) => w < |p.workers| && p.workers[w].Leaving?
  }

  ghost function Checked(s: Setup, t: Tables, job: FileJob): Worker {
    if FilesExist(t, s.repo, FilesId(s.repo, job), job.version.digest) then AtFiles
    else match s.fetch(job) case None => AtFiles case Some(content) => Storing(job, content)
  }

  ghost function Next(s: Setup, p: Pool, step: Step): Pool
    requires Enabled(s, p, step)
  {
    match step
    case SendIcon =>
      if p.iconsClosed then p.(panicked := true)
      else p.(unsentIcons := p.unsentIcons[1..], iconQueue := p.iconQueue + [p.unsentIcons[0]])
    case CloseIcons => p.(caller := FeedingFiles, iconsClosed := true, panicked := p.iconsClosed)
    case SendFile =>
      if p.filesClosed then p.(panicked := true)
      else p.(unsentFiles := p.unsentFiles[1..], fileQueue := p.fileQueue + [p.unsentFiles[0]])
    case CloseFiles => p.(caller := Waiting, filesClosed := true, panicked := p.filesClosed)
    case WaitReturns => p.(caller := Returned)
    case TakeIcon(w) =>
      p.(workers := p.workers[w := Icon(p.iconQueue[0])], takenIcons := p.takenIcons + [p.iconQueue[0]],
         iconQueue := p.iconQueue[1..])
    case FinishIcon(w) => p.(workers := p.workers[w := AtIcons])
    case LeaveIcons(w) => p.(workers := p.workers[w := AtFiles])
    case TakeFile(w) =>
      p.(workers := p.workers[w := Checking(p.fileQueue[0])], takenFiles := p.takenFiles + [p.fileQueue[0]],
         fileQueue := p.fileQueue[1..])
    case Check(w) => p.(workers := p.workers[w := Checked(s, p.tables, p.workers[w].job)])
    case Insert(w) =>
      p.(workers := p.workers[w := AtFiles], tables := Store(s.repo, p.tables, p.workers[w].job, p.workers[w].content))
    case LeaveFiles(w) => p.(workers := p.workers[w := Leaving])
    case SignalDone(w) => p.(workers := p.workers[w := Gone], waiting := p.waiting - 1, panicked := p.waiting <= 0)
  }

  ghost predicate IsRun(s: Setup, p: Pool, steps: seq<Step>, q: Pool)
    decreases |steps|
  {
    if steps == [] then q == p
    else Enabled(s, p, steps[0]) && IsRun(s, Next(s, p, steps[0]), steps[1..], q)
  }

  ghost predicate Stuck(s: Setup, p: Pool) {
    forall step :: !Enabled(s, p, step)
  }

  // ----- Channels and goroutines -----

  ghost function Weight(w: Worker): nat {
    match w
    case AtIcons => 3 case Icon(_) => 4 case AtFiles => 2 case Checking(_) => 4
    case Storing(_, _) => 3 case Leaving => 1 case Gone => 0
  }

  ghost function TotalWeight(workers: seq<Worker>): nat {
    if workers == [] then 0 else Weight(workers[0]) + TotalWeight(workers[1..])
  }

  ghost function Live(workers: seq<Worker>): nat {
    if workers == [] then 0 else (if workers[0].Gone? then 0 else 1) + Live(workers[1..])
  }

  ghost predicate PastIcons(w: Worker) {
    !w.AtIcons? && !w.Icon?
  }

  ghost predicate PastFiles(w: Worker) {
    w.Leaving? || w.Gone?
  }

  /** Nothing is lost or overtaken in either channel. */
  ghost predicate InOrder(s: Setup, p: Pool) {
    && p.takenIcons + p.iconQueue + p.unsentIcons == s.charts
    && p.takenFiles + p.fileQueue + p.unsentFiles == FileJobs(s.charts)
  }

  /** Which channels are closed, and how far the goroutines can be. */
  ghost predicate Structure(s: Setup, p: Pool) {
    && |p.workers| == s.workers
    && |p.iconQueue| <= s.capacity && |p.fileQueue| <= s.capacity
    && (p.iconsClosed <==> !p.caller.FeedingIcons?)
    && (p.iconsClosed ==> p.unsentIcons == [])
    && (p.filesClosed <==> p.caller.Waiting? || p.caller.Returned?)
    && (p.filesClosed ==> p.unsentFiles == [])
    && (forall w :: 0 <= w < |p.workers| && PastIcons(p.workers[w]) ==> p.iconsClosed && p.iconQueue == [])
    && (forall w :: 0 <= w < |p.workers| && PastFiles(p.workers[w]) ==> p.filesClosed && p.fileQueue == [])
    && (p.takenFiles != [] ==> p.iconsClosed && p.iconQueue == [])
    && (forall w :: 0 <= w < |p.workers| && p.workers[w].Icon? ==> p.takenIcons != [])
    && (p.caller.Returned? ==> forall w :: 0 <= w < |p.workers| ==> p.workers[w].Gone?)
  }

  ghost function Measure(p: Pool): nat {
    3 * |p.unsentIcons| + 2 * |p.iconQueue| + 4 * |p.unsentFiles| + 3 * |p.fileQueue| + TotalWeight(p.workers)
    + match p.caller case FeedingIcons => 3 case FeedingFiles => 2 case Waiting => 1 case Returned => 0
  }

  lemma {:induction false} UpdateWorker(workers: seq<Worker>, w: nat, x: Worker)
    requires w < |workers|
    ensures Live(workers[w := x]) + (if workers[w].Gone? then 0 else 1) == Live(workers) + (if x.Gone? then 0 else 1)
    ensures TotalWeight(workers[w := x]) + Weight(workers[w]) == TotalWeight(workers) + Weight(x)
  {
    var after := workers[w := x];
    if w == 0 {
      assert after[1..] == workers[1..];
    } else {
      UpdateWorker(workers[1..], w - 1, x);
      assert after[1..] == workers[1..][w - 1 := x];
    }
  }

  lemma {:induction false} LiveZero(workers: seq<Worker>)
    ensures Live(workers) == 0 <==> forall w :: 0 <= w < |workers| ==> workers[w].Gone?
  {
    if workers != [] {
      LiveZero(workers[1..]);
      if workers[0].Gone? && (forall w :: 0 <= w < |workers[1..]| ==> workers[1..][w].Gone?) {
        forall w | 0 <= w < |workers| ensures workers[w].Gone? {
          if w > 0 { assert workers[w] == workers[1..][w - 1]; }
        }
      }
    }
  }

  lemma {:induction false} AllAtIcons(n: nat)
    ensures var ws := seq(n, _ => AtIcons); Live(ws) == n && TotalWeight(ws) == 3 * n
  {
    if n > 0 {
      AllAtIcons(n - 1);
      assert seq(n, _ => AtIcons)[1..] == seq(n - 1, _ => AtIcons);
    }
  }

  ghost predicate IsCallerStep(step: Step) {
    step.SendIcon? || step.CloseIcons? || step.SendFile? || step.CloseFiles? || step.WaitReturns?
  }

  // The worker a step moves, and where to.
  ghost function Moved(s: Setup, p: Pool, step: Step): (nat, Worker)
    requires Enabled(s, p, step) && !IsCallerStep(step)
    ensures var (w, x) := Moved(s, p, step); w < |p.workers| && Next(s, p, step).workers == p.workers[w := x]
    ensures Next(s, p, step).caller == p.caller
  {
    match step
    case TakeIcon(w) => (w, Icon(p.iconQueue[0]))
    case FinishIcon(w) => (w, AtIcons)
    case LeaveIcons(w) => (w, AtFiles)
    case TakeFile(w) => (w, Checking(p.fileQueue[0]))
    case Check(w) => (w, Checked(s, p.tables, p.workers[w].job))
    case Insert(w) => (w, AtFiles)
    case LeaveFiles(w) => (w, Leaving)
    case SignalDone(w) => (w, Gone)
  }

  lemma CallerStepDescends(s: Setup, p: Pool, step: Step)
    requires Enabled(s, p, step) && Structure(s, p) && IsCallerStep(step)
    ensures !Next(s, p, step).panicked
    ensures Next(s, p, step).waiting == p.waiting && Next(s, p, step).workers == p.workers
    ensures Measure(Next(s, p, step)) < Measure(p)
  {
  }

  lemma WorkerStepDescends(s: Setup, p: Pool, step: Step)
    requires Enabled(s, p, step) && p.waiting == Live(p.workers) && !IsCallerStep(step)
    ensures !Next(s, p, step).panicked
    ensures Next(s, p, step).waiting == Live(Next(s, p, step).workers)
    ensures Measure(Next(s, p, step)) < Measure(p)
  {
    var (w, x) := Moved(s, p, step);
    UpdateWorker(p.workers, w, x);
    var q := Next(s, p, step);
    assert q.unsentIcons == p.unsentIcons && q.unsentFiles == p.unsentFiles;
    assert 2 * |q.iconQueue| + 3 * |q.fileQueue| + Weight(x)
         < 2 * |p.iconQueue| + 3 * |p.fileQueue| + Weight(p.workers[w]);
    if step.SignalDone? {
      LiveZero(p.workers);
    }
  }

  lemma StepKeepsOrder(s: Setup, p: Pool, step: Step)
    requires Enabled(s, p, step) && InOrder(s, p) && !Next(s, p, step).panicked
    ensures InOrder(s, Next(s, p, step))
  {
    match step
    case SendIcon => Shift(p.takenIcons, p.iconQueue, p.unsentIcons);
    case SendFile => Shift(p.takenFiles, p.fileQueue, p.unsentFiles);
    case TakeIcon(w) => Shift(p.takenIcons, p.iconQueue, p.unsentIcons);
    case TakeFile(w) => Shift(p.takenFiles, p.fileQueue, p.unsentFiles);
    case _ =>
  }

  lemma Shift<T>(taken: seq<T>, queue: seq<T>, unsent: seq<T>)
    ensures queue != [] ==> taken + queue + unsent == (taken + [queue[0]]) + queue[1..] + unsent
    ensures unsent != [] ==> taken + queue + unsent == taken + (queue + [unsent[0]]) + unsent[1..]
  {
  }

  lemma CallerStepStructure(s: Setup, p: Pool, step: Step)
    requires Enabled(s, p, step) && Structure(s, p) && p.waiting == Live(p.workers) && IsCallerStep(step)
    ensures Structure(s, Next(s, p, step))
  {
    LiveZero(p.workers);
  }

  lemma WorkerStepStructure(s: Setup, p: Pool, step: Step)
    requires Enabled(s, p, step) && Structure(s, p) && !IsCallerStep(step)
    ensures Structure(s, Next(s, p, step))
  {
    var (w, x) := Moved(s, p, step);
    var q := Next(s, p, step);
    assert PastIcons(x) && !PastIcons(p.workers[w]) ==> p.iconsClosed && p.iconQueue == [];
    assert PastFiles(x) && !PastFiles(p.workers[w]) ==> p.filesClosed && p.fileQueue == [];
    assert q.iconsClosed == p.iconsClosed && q.filesClosed == p.filesClosed;
    forall v | 0 <= v < |q.workers| && PastIcons(q.workers[v]) ensures q.iconsClosed && q.iconQueue == [] {
      if v != w { assert PastIcons(p.workers[v]); }
    }
    forall v | 0 <= v < |q.workers| && PastFiles(q.workers[v]) ensures q.filesClosed && q.fileQueue == [] {
      if v != w { assert PastFiles(p.workers[v]); }
    }
  }

  /** What every step keeps, whatever the file ids. */
  ghost predicate Flows(s: Setup, p: Pool) {
    !p.panicked && p.waiting == Live(p.workers) && InOrder(s, p) && Structure(s, p)
  }

  lemma StartFlows(s: Setup, t: Tables)
    ensures Flows(s, Start(s, t))
    ensures Measure(Start(s, t)) == 3 * |s.charts| + 4 * |FileJobs(s.charts)| + 3 * s.workers + 3
  {
    AllAtIcons(s.workers);
    assert [] + [] + s.charts == s.charts && [] + [] + FileJobs(s.charts) == FileJobs(s.charts);
  }

  lemma StepFlows(s: Setup, p: Pool, step: Step)
    requires Flows(s, p) && Enabled(s, p, step)
    ensures Flows(s, Next(s, p, step)) && Measure(Next(s, p, step)) < Measure(p)
  {
    if IsCallerStep(step) {
      CallerStepDescends(s, p, step);
      CallerStepStructure(s, p, step);
    } else {
      WorkerStepDescends(s, p, step);
      WorkerStepStructure(s, p, step);
    }
    StepKeepsOrder(s, p, step);
  }

  lemma {:induction false} RunFlows(s: Setup, p: Pool, steps: seq<Step>, q: Pool)
    requires Flows(s, p) && IsRun(s, p, steps, q)
    ensures Flows(s, q) && |steps| + Measure(q) <= Measure(p)
    decreases |steps|
  {
    if steps != [] {
      StepFlows(s, p, steps[0]);
      RunFlows(s, Next(s, p, steps[0]), steps[1..], q);
    }
  }

  // ----- The files table -----

  ghost function JobOf(w: Worker): Option<FileJob> {
    match w case Checking(j) => Some(j) case Storing(j, _) => Some(j) case _ => None
  }

  ghost function Holds(w: Worker, j: FileJob): nat {
    if JobOf(w) == Some(j) then 1 else 0
  }

  /** How often the job has been taken and is not done with. */
  ghost function InHand(workers: seq<Worker>, j: FileJob): nat {
    if workers == [] then 0 else Holds(workers[0], j) + InHand(workers[1..], j)
  }

  lemma {:induction false} InHandAfter(workers: seq<Worker>, w: nat, x: Worker, j: FileJob)
    requires w < |workers|
    ensures InHand(workers[w := x], j) + Holds(workers[w], j) == InHand(workers, j) + Holds(x, j)
  {
    if w == 0 {
      assert workers[0 := x][1..] == workers[1..];
    } else {
      InHandAfter(workers[1..], w - 1, x, j);
      assert workers[w := x][1..] == workers[1..][w - 1 := x];
    }
  }

  lemma {:induction false} NoneInHand(workers: seq<Worker>, j: FileJob)
    requires forall w :: 0 <= w < |workers| ==> JobOf(workers[w]).None?
    ensures InHand(workers, j) == 0
  {
    if workers != [] {
      NoneInHand(workers[1..], j);
    }
  }

  /** A worker about to store has what the fetch brought; should a row with the job's digest have turned up since it
      looked, that row holds the same. */
  ghost predicate StoresRight(s: Setup, t: Tables, w: Worker) {
    w.Storing? ==>
      && w.job in FileJobs(s.charts) && s.fetch(w.job) == Some(w.content)
      && Trusted(s.repo, s.fetch, t, w.job)
  }

  ghost predicate AllStoreRight(s: Setup, t: Tables, workers: seq<Worker>) {
    forall w :: 0 <= w < |workers| ==> StoresRight(s, t, workers[w])
  }

  /** Every job taken is in hand or in this list of the jobs done with. */
  ghost predicate Accounted(p: Pool, order: seq<FileJob>) {
    forall j :: multiset(order)[j] + InHand(p.workers, j) == multiset(p.takenFiles)[j]
  }

  /** The tables are those of a sequential import of the jobs done with, in this order. */
  ghost predicate ImportedAs(s: Setup, t: Tables, p: Pool, order: seq<FileJob>) {
    p.tables == ImportAll(s.repo, s.fetch, t, order) && Accounted(p, order) && AllStoreRight(s, p.tables, p.workers)
  }

  // Where the jobs are after worker w has become x: it keeps its job, takes one or is done with it.
  lemma MoveAccounts(p: Pool, q: Pool, w: nat, x: Worker, order: seq<FileJob>, after: seq<FileJob>)
    requires Accounted(p, order) && w < |p.workers| && q.workers == p.workers[w := x]
    requires || (JobOf(x) == JobOf(p.workers[w]) && q.takenFiles == p.takenFiles && after == order)
             || (JobOf(p.workers[w]).None? && JobOf(x).Some? && q.takenFiles == p.takenFiles + [JobOf(x).value]
               && after == order)
             || (JobOf(p.workers[w]).Some? && JobOf(x).None? && q.takenFiles == p.takenFiles
                 && after == order + [JobOf(p.workers[w]).value])
    ensures Accounted(q, after)
  {
    forall j ensures multiset(after)[j] + InHand(q.workers, j) == multiset(q.takenFiles)[j] {
      InHandAfter(p.workers, w, x, j);
    }
  }

  lemma OneStoresRight(s: Setup, t: Tables, workers: seq<Worker>, w: nat, x: Worker)
    requires AllStoreRight(s, t, workers) && w < |workers| && StoresRight(s, t, x)
    ensures AllStoreRight(s, t, workers[w := x])
  {
  }

  lemma TakenAreJobs(s: Setup, p: Pool, j: FileJob)
    requires InOrder(s, p)
    ensures j in p.takenFiles || j in p.fileQueue ==> j in FileJobs(s.charts)
  {
    assert j in p.takenFiles || j in p.fileQueue ==> j in p.takenFiles + p.fileQueue + p.unsentFiles;
  }

  lemma {:induction false} HeldIsInHand(workers: seq<Worker>, w: nat)
    requires w < |workers| && JobOf(workers[w]).Some?
    ensures InHand(workers, JobOf(workers[w]).value) > 0
  {
    if w > 0 {
      HeldIsInHand(workers[1..], w - 1);
    }
  }

  lemma ImportAllSnoc(repo: RepoKey, fetch: Fetch, t: Tables, jobs: seq<FileJob>, j: FileJob)
    ensures ImportAll(repo, fetch, t, jobs + [j]) == ImportOne(repo, fetch, ImportAll(repo, fetch, t, jobs), j)
  {
    assert (jobs + [j])[..|jobs|] == jobs;
  }

  // A step that leaves the tables alone and neither takes a job nor ends one.
  lemma QuietStepKeepsOrder(s: Setup, t: Tables, p: Pool, step: Step, order: seq<FileJob>)
    requires Enabled(s, p, step) && ImportedAs(s, t, p, order)
    requires !step.TakeFile? && !step.Check? && !step.Insert?
    ensures ImportedAs(s, t, Next(s, p, step), order)
  {
    if !IsCallerStep(step) {
      var (w, x) := Moved(s, p, step);
      MoveAccounts(p, Next(s, p, step), w, x, order, order);
      OneStoresRight(s, p.tables, p.workers, w, x);
    }
  }

  lemma TakeFileKeepsOrder(s: Setup, t: Tables, p: Pool, w: nat, order: seq<FileJob>)
    requires Enabled(s, p, TakeFile(w)) && ImportedAs(s, t, p, order)
    ensures ImportedAs(s, t, Next(s, p, TakeFile(w)), order)
  {
    var x := Checking(p.fileQueue[0]);
    MoveAccounts(p, Next(s, p, TakeFile(w)), w, x, order, order);
    OneStoresRight(s, p.tables, p.workers, w, x);
  }

  lemma CheckedRight(s: Setup, t: Tables, job: FileJob)
    requires job in FileJobs(s.charts)
    ensures StoresRight(s, t, Checked(s, t, job))
    ensures Checked(s, t, job).AtFiles? ==> ImportOne(s.repo, s.fetch, t, job) == t
  {
  }

  // A job that is skipped or cannot be fetched is done with here, without effect.
  lemma CheckKeepsOrder(s: Setup, t: Tables, p: Pool, w: nat, order: seq<FileJob>) returns (after: seq<FileJob>)
    requires Enabled(s, p, Check(w)) && InOrder(s, p) && ImportedAs(s, t, p, order)
    ensures ImportedAs(s, t, Next(s, p, Check(w)), after)
  {
    var job := p.workers[w].job;
    var x := Checked(s, p.tables, job);
    HeldIsInHand(p.workers, w);
    assert job in multiset(p.takenFiles);
    TakenAreJobs(s, p, job);
    CheckedRight(s, p.tables, job);
    after := if x.AtFiles? then order + [job] else order;
    ImportAllSnoc(s.repo, s.fetch, t, order, job);
    MoveAccounts(p, Next(s, p, Check(w)), w, x, order, after);
    OneStoresRight(s, p.tables, p.workers, w, x);
  }

  lemma StoreKeepsRight(s: Setup, t: Tables, job: FileJob, content: Content, w: Worker)
    requires s.DigestsTell() && job in FileJobs(s.charts) && s.fetch(job) == Some(content) && StoresRight(s, t, w)
    ensures StoresRight(s, Store(s.repo, t, job, content), w)
  {
    if w.Storing? && Key(s.repo, w.job) == Key(s.repo, job) && w.job.version.digest == job.version.digest {
      assert s.fetch(w.job) == s.fetch(job);
    }
  }

  lemma InsertKeepsOrder(s: Setup, t: Tables, p: Pool, w: nat, order: seq<FileJob>)
    requires s.NoRace() && |p.workers| == s.workers && Enabled(s, p, Insert(w)) && ImportedAs(s, t, p, order)
    ensures ImportedAs(s, t, Next(s, p, Insert(w)), order + [p.workers[w].job])
  {
    var job, content, q := p.workers[w].job, p.workers[w].content, Next(s, p, Insert(w));
    assert StoresRight(s, p.tables, p.workers[w]);
    StoreTrusted(s.repo, s.fetch, p.tables, job);
    ImportAllSnoc(s.repo, s.fetch, t, order, job);
    MoveAccounts(p, q, w, AtFiles, order, order + [job]);
    forall v | 0 <= v < |q.workers| ensures StoresRight(s, q.tables, q.workers[v]) {
      if v != w {
        StoreKeepsRight(s, p.tables, job, content, p.workers[v]);
      }
    }
  }

  /** Whatever the schedule and however ids collide, the file rows of other repositories are as they were. */
  lemma {:induction false} PassKeepsOtherFiles(s: Setup, p: Pool, steps: seq<Step>, q: Pool)
    requires IsRun(s, p, steps, q) && FilesInPlace(p.tables) && '/' !in s.repo.name
    ensures FilesInPlace(q.tables) && OtherFilesKept(p.tables, q.tables, s.repo)
    decreases |steps|
  {
    if steps != [] {
      if steps[0].Insert? {
        StoreKeepsOthers(s.repo, p.tables, p.workers[steps[0].w].job, p.workers[steps[0].w].content);
      }
      PassKeepsOtherFiles(s, Next(s, p, steps[0]), steps[1..], q);
    }
  }

  // ----- Runs -----

  /** So far the pass has come down to some sequential import. */
  ghost predicate Invariant(s: Setup, t: Tables, p: Pool) {
    Flows(s, p) && exists order :: ImportedAs(s, t, p, order)
  }

  lemma StepKeepsSomeOrder(s: Setup, t: Tables, p: Pool, step: Step, order: seq<FileJob>) returns (after: seq<FileJob>)
    requires s.NoRace() && |p.workers| == s.workers && InOrder(s, p) && ImportedAs(s, t, p, order)
      && Enabled(s, p, step)
    ensures ImportedAs(s, t, Next(s, p, step), after)
  {
    after := order;
    match step
    case TakeFile(w) => TakeFileKeepsOrder(s, t, p, w, order);
    case Check(w) => after := CheckKeepsOrder(s, t, p, w, order);
    case Insert(w) =>
      InsertKeepsOrder(s, t, p, w, order);
      after := order + [p.workers[w].job];
    case _ => QuietStepKeepsOrder(s, t, p, step, order);
  }

  lemma StepKeeps(s: Setup, t: Tables, p: Pool, step: Step)
    requires s.NoRace() && Invariant(s, t, p) && Enabled(s, p, step)
    ensures Invariant(s, t, Next(s, p, step)) && Measure(Next(s, p, step)) < Measure(p)
  {
    StepFlows(s, p, step);
    var order :| ImportedAs(s, t, p, order);
    var after := StepKeepsSomeOrder(s, t, p, step, order);
  }

  lemma {:induction false} RunKeeps(s: Setup, t: Tables, p: Pool, steps: seq<Step>, q: Pool)
    requires s.NoRace() && Invariant(s, t, p) && IsRun(s, p, steps, q)
    ensures Invariant(s, t, q)
    decreases |steps|
  {
    if steps != [] {
      StepKeeps(s, t, p, steps[0]);
      RunKeeps(s, t, Next(s, p, steps[0]), steps[1..], q);
    }
  }

  lemma TakenInOrder(s: Setup, p: Pool)
    requires InOrder(s, p)
    ensures p.takenIcons <= s.charts && p.takenFiles <= FileJobs(s.charts)
  {
    assert p.takenFiles + (p.fileQueue + p.unsentFiles) == p.takenFiles + p.fileQueue + p.unsentFiles;
    assert p.takenIcons + (p.iconQueue + p.unsentIcons) == p.takenIcons + p.iconQueue + p.unsentIcons;
  }

  lemma AllIconsTaken(s: Setup, p: Pool)
    requires InOrder(s, p) && p.iconQueue == [] && p.unsentIcons == []
    ensures p.takenIcons == s.charts
  {
    assert p.takenIcons + [] + [] == p.takenIcons;
  }

  lemma AllFilesTaken(s: Setup, p: Pool)
    requires InOrder(s, p) && p.fileQueue == [] && p.unsentFiles == []
    ensures p.takenFiles == FileJobs(s.charts)
  {
    assert p.takenFiles + [] + [] == p.takenFiles;
  }

  /** In every schedule, of bounded length: no panic; no file job is taken before every icon has been; the file
      jobs are taken in their order, each at most once. */
  lemma PassIsOrdered(s: Setup, t: Tables, steps: seq<Step>, q: Pool)
    requires s.Valid() && IsRun(s, Start(s, t), steps, q)
    ensures !q.panicked && |steps| <= 3 * |s.charts| + 4 * |FileJobs(s.charts)| + 3 * s.workers + 3
    ensures q.takenFiles != [] ==> q.takenIcons == s.charts
    ensures q.takenIcons <= s.charts && q.takenFiles <= FileJobs(s.charts)
  {
    StartFlows(s, t);
    RunFlows(s, Start(s, t), steps, q);
    TakenInOrder(s, q);
    if q.takenFiles != [] {
      AllIconsTaken(s, q);
    }
  }

  // A worker of a stuck pool has gone or waits at a channel that is open and empty.
  lemma WorkerStuck(s: Setup, p: Pool, w: nat)
    requires Stuck(s, p) && !p.panicked && w < |p.workers|
    ensures p.workers[w].Gone? || (p.workers[w].AtIcons? && p.iconQueue == [] && !p.iconsClosed)
         || (p.workers[w].AtFiles? && p.fileQueue == [] && !p.filesClosed)
  {
    assert !Enabled(s, p, TakeIcon(w)) && !Enabled(s, p, FinishIcon(w)) && !Enabled(s, p, LeaveIcons(w));
    assert !Enabled(s, p, TakeFile(w)) && !Enabled(s, p, Check(w)) && !Enabled(s, p, Insert(w));
    assert !Enabled(s, p, LeaveFiles(w)) && !Enabled(s, p, SignalDone(w));
  }

  lemma NoDeadlock(s: Setup, p: Pool)
    requires s.Valid() && Flows(s, p) && Stuck(s, p)
    ensures p.caller.Returned?
  {
    assert !Enabled(s, p, SendIcon) && !Enabled(s, p, CloseIcons) && !Enabled(s, p, WaitReturns);
    assert !Enabled(s, p, SendFile) && !Enabled(s, p, CloseFiles);
    forall w | 0 <= w < |p.workers|
      ensures p.workers[w].Gone? || (p.workers[w].AtIcons? && p.iconQueue == [] && !p.iconsClosed)
           || (p.workers[w].AtFiles? && p.fileQueue == [] && !p.filesClosed)
    {
      WorkerStuck(s, p, w);
    }
    LiveZero(p.workers);
  }

  /** Every schedule that cannot go on has returned from the pass, with every icon and every file job taken once and no
      goroutine left, whatever the file ids. */
  lemma EveryScheduleCompletes(s: Setup, t: Tables, steps: seq<Step>, q: Pool)
    requires s.Valid() && IsRun(s, Start(s, t), steps, q) && Stuck(s, q)
    ensures q.caller.Returned? && q.takenIcons == s.charts && q.takenFiles == FileJobs(s.charts)
    ensures forall w :: 0 <= w < |q.workers| ==> q.workers[w].Gone?
  {
    StartFlows(s, t);
    RunFlows(s, Start(s, t), steps, q);
    NoDeadlock(s, q);
    assert PastFiles(q.workers[0]) && PastIcons(q.workers[0]);
    AllIconsTaken(s, q);
    AllFilesTaken(s, q);
  }

  /** Any pool that flows can be driven to a stuck one, so completing schedules exist. */
  lemma {:induction false} CanFinish(s: Setup, p: Pool) returns (steps: seq<Step>, q: Pool)
    requires Flows(s, p)
    ensures IsRun(s, p, steps, q) && Stuck(s, q)
    decreases Measure(p)
  {
    if Stuck(s, p) {
      steps, q := [], p;
    } else {
      var step :| Enabled(s, p, step);
      StepFlows(s, p, step);
      var rest;
      rest, q := CanFinish(s, Next(s, p, step));
      steps := [step] + rest;
    }
  }

  lemma StartHolds(s: Setup, t: Tables)
    ensures Invariant(s, t, Start(s, t))
  {
    StartFlows(s, t);
    forall j ensures InHand(Start(s, t).workers, j) == 0 {
      NoneInHand(Start(s, t).workers, j);
    }
    assert ImportedAs(s, t, Start(s, t), []);
  }

  /** The tables are those of the sequential import of the jobs in some order. */
  ghost predicate OfSomeOrder(s: Setup, t: Tables, r: Tables) {
    exists order :: multiset(order) == multiset(FileJobs(s.charts)) && r == ImportAll(s.repo, s.fetch, t, order)
  }

  lemma AllDoneWith(s: Setup, p: Pool, order: seq<FileJob>)
    requires Accounted(p, order) && p.takenFiles == FileJobs(s.charts)
    requires forall w :: 0 <= w < |p.workers| ==> p.workers[w].Gone?
    ensures multiset(order) == multiset(FileJobs(s.charts))
  {
    forall j ensures multiset(order)[j] == multiset(FileJobs(s.charts))[j] {
      NoneInHand(p.workers, j);
    }
  }

  /** File ids may collide: with one worker, or as long as jobs that share id and digest bring the same files, every
      schedule leaves the tables of the sequential import in some order. */
  lemma EveryScheduleIsSomeOrder(s: Setup, t: Tables, steps: seq<Step>, q: Pool)
    requires s.Valid() && s.NoRace() && IsRun(s, Start(s, t), steps, q) && Stuck(s, q)
    ensures OfSomeOrder(s, t, q.tables)
  {
    EveryScheduleCompletes(s, t, steps, q);
    StartHolds(s, t);
    RunKeeps(s, t, Start(s, t), steps, q);
    var order :| ImportedAs(s, t, q, order);
    AllDoneWith(s, q, order);
  }

  lemma OneJobPerKey(s: Setup, i: FileJob, j: FileJob)
    requires s.IdsApart() && i in FileJobs(s.charts) && j in FileJobs(s.charts) && Key(s.repo, i) == Key(s.repo, j)
    ensures i == j
  {
    var jobs := FileJobs(s.charts);
    var a :| 0 <= a < |jobs| && jobs[a] == i;
    var b :| 0 <= b < |jobs| && jobs[b] == j;
    assert !(a < b) && !(b < a);
  }

  lemma ApartTells(s: Setup)
    requires s.IdsApart()
    ensures s.DigestsTell()
  {
    forall i, j | i in FileJobs(s.charts) && j in FileJobs(s.charts) && Key(s.repo, i) == Key(s.repo, j)
      ensures i == j
    {
      OneJobPerKey(s, i, j);
    }
  }

  lemma PermutedApart(s: Setup, order: seq<FileJob>)
    requires s.IdsApart() && multiset(order) == multiset(FileJobs(s.charts))
    ensures DistinctKeys(s.repo, order)
  {
    var jobs := FileJobs(s.charts);
    SameMembers(order, jobs);
    DistinctPermuted(jobs, order);
    forall i, j | 0 <= i < j < |order| ensures Key(s.repo, order[i]) != Key(s.repo, order[j]) {
      assert order[i] in jobs && order[j] in jobs && order[i] != order[j];
      if Key(s.repo, order[i]) == Key(s.repo, order[j]) {
        OneJobPerKey(s, order[i], order[j]);
      }
    }
  }

  /** With file ids apart the order does not matter: the tables are those of the sequential import, whatever the
      schedule. */
  lemma EveryScheduleImportsAll(s: Setup, t: Tables, steps: seq<Step>, q: Pool)
    requires s.Valid() && s.IdsApart() && IsRun(s, Start(s, t), steps, q) && Stuck(s, q)
    ensures q.tables == ImportAll(s.repo, s.fetch, t, FileJobs(s.charts))
  {
    var jobs := FileJobs(s.charts);
    ApartTells(s);
    EveryScheduleIsSomeOrder(s, t, steps, q);
    var order :| multiset(order) == multiset(jobs) && q.tables == ImportAll(s.repo, s.fetch, t, order);
    PermutedApart(s, order);
    SameMembers(order, jobs);
    ImportAllIsExact(s.repo, s.fetch, t, order);
    ImportAllIsExact(s.repo, s.fetch, t, jobs);
    ImportedExactlyUnique(s.repo, s.fetch, t, jobs, q.tables, ImportAll(s.repo, s.fetch, t, jobs));
  }

  /** After a Sync every schedule of a pass without fetch errors leaves every version its file row. */
  lemma EveryScheduleStoresFiles(s: Setup, t: Tables, steps: seq<Step>, q: Pool)
    requires s.Valid() && s.IdsApart() && KeysHold(t) && WellIdentified(s.repo, s.charts)
    requires var synced := SyncTables(t, s.repo, s.charts);
             && IsRun(s, Start(s, synced), steps, q) && Stuck(s, q)
             && forall j :: j in FileJobs(s.charts) ==> s.fetch(j).Some? && Trusted(s.repo, s.fetch, synced, j)
    ensures var synced := SyncTables(t, s.repo, s.charts);
            && KeysHold(q.tables) && q.tables.charts == synced.charts && q.tables.repos == synced.repos
            && forall j :: j in FileJobs(s.charts) ==>
                 HasFiles(s.repo, q.tables, j, s.fetch(j).value, Owned(s.repo, synced, j))
  {
    EveryScheduleImportsAll(s, SyncTables(t, s.repo, s.charts), steps, q);
    EveryVersionHasItsFiles(t, s.repo, s.fetch, s.charts);
  }

  /** Whichever fetches fail: after a Sync every schedule of a pass leaves a version's row with its digest exactly if
      the version was fetched or its row carried the digest before. */
  lemma EveryScheduleHasDigestIff(s: Setup, t: Tables, steps: seq<Step>, q: Pool, j: FileJob)
    requires s.Valid() && s.IdsApart() && KeysHold(t) && WellIdentified(s.repo, s.charts) && j in FileJobs(s.charts)
    requires IsRun(s, Start(s, SyncTables(t, s.repo, s.charts)), steps, q) && Stuck(s, q)
    ensures HasDigest(s.repo, q.tables, j) <==>
            s.fetch(j).Some? || HasDigest(s.repo, SyncTables(t, s.repo, s.charts), j)
  {
    EveryScheduleImportsAll(s, SyncTables(t, s.repo, s.charts), steps, q);
    HasDigestIff(t, s.repo, s.fetch, s.charts, j);
  }
}
