/** The goroutine pool behind OCIRegistry.FilterIndex, OCIRegistry.Charts and filterAllowedNamespaces,
    as a transition system: one producer, any number of workers, a closer waiting on the WaitGroup and
    the receiving caller, joined by two bounded channels.  A schedule is a sequence of steps. */
module WorkerPool {

  datatype Config = Config(workers: nat, jobCapacity: nat, resultCapacity: nat) {
    // Both callers give the channels one slot per worker; here any positive capacities will do.
    ghost predicate Valid() {
      workers > 0 ==> jobCapacity > 0 && resultCapacity > 0
    }
  }

  datatype Worker<J> = Ready | Holding(job: J) | Returned | Done

  /** `waiting` is the WaitGroup counter.  `panicked` records a send on or a close of a closed channel,
      or a counter below zero: the steps take such a transition instead of ruling it out. */
  datatype Pool<J> = Pool(
    unsent: seq<J>, producing: bool, jobsClosed: bool, jobQueue: seq<J>,
    workers: seq<Worker<J>>, waiting: int,
    closerWaiting: bool, resultsClosed: bool, resultQueue: seq<J>,
    received: seq<J>, receiving: bool, panicked: bool)

  datatype Step =
    | SendJob
    | CloseJobs
    | TakeJob(w: nat)
    | SendResult(w: nat)
    | LeaveLoop(w: nat)
    | SignalDone(w: nat)
    | CloseResults
    | Receive
    | EndReceive

  ghost function Start<J(!new)>(c: Config, jobs: seq<J>): Pool<J> {
    Pool(jobs, true, false, [], seq(c.workers, _ => Ready), c.workers, true, false, [], [], true, false)
  }

  ghost predicate Enabled<J(!new)>(c: Config, p: Pool<J>, step: Step) {
    && !p.panicked
    && match step
       case SendJob => p.producing && p.unsent != [] && (p.jobsClosed || |p.jobQueue| < c.jobCapacity)
       case CloseJobs => p.producing && p.unsent == []
       case TakeJob(w) => w < |p.workers| && p.workers[w].Ready? && p.jobQueue != []
       case SendResult(w) =>
         w < |p.workers| && p.workers[w].Holding? && (p.resultsClosed || |p.resultQueue| < c.resultCapacity)
       case LeaveLoop(w) => w < |p.workers| && p.workers[w].Ready? && p.jobQueue == [] && p.jobsClosed
       case SignalDone(w) => w < |p.workers| && p.workers[w].Returned?
       case CloseResults => p.closerWaiting && p.waiting == 0
       case Receive => p.receiving && p.resultQueue != []
       case EndReceive => p.receiving && p.resultQueue == [] && p.resultsClosed
  }

  ghost function Next<J(!new)>(c: Config, p: Pool<J>, step: Step): Pool<J>
    requires Enabled(c, p, step)
  {
    match step
    case SendJob =>
      if p.jobsClosed then p.(panicked := true)
      else p.(unsent := p.unsent[1..], jobQueue := p.jobQueue + [p.unsent[0]])
    case CloseJobs => p.(producing := false, jobsClosed := true, panicked := p.jobsClosed)
    case TakeJob(w) => p.(workers := p.workers[w := Holding(p.jobQueue[0])], jobQueue := p.jobQueue[1..])
    case SendResult(w) =>
      if p.resultsClosed then p.(panicked := true)
      else p.(workers := p.workers[w := Ready], resultQueue := p.resultQueue + [p.workers[w].job])
    case LeaveLoop(w) => p.(workers := p.workers[w := Returned])
    case SignalDone(w) => p.(workers := p.workers[w := Done], waiting := p.waiting - 1, panicked := p.waiting <= 0)
    case CloseResults => p.(closerWaiting := false, resultsClosed := true, panicked := p.resultsClosed)
    case Receive => p.(received := p.received + [p.resultQueue[0]], resultQueue := p.resultQueue[1..])
    case EndReceive => p.(receiving := false)
  }

  ghost predicate IsRun<J(!new)>(c: Config, p: Pool<J>, steps: seq<Step>, q: Pool<J>)
    decreases |steps|
  {
    if steps == [] then q == p
    else Enabled(c, p, steps[0]) && IsRun(c, Next(c, p, steps[0]), steps[1..], q)
  }

  ghost predicate Stuck<J(!new)>(c: Config, p: Pool<J>) {
    forall step :: !Enabled(c, p, step)
  }

  // ----- What every step keeps -----

  ghost function Held<J(!new)>(w: Worker<J>, j: J): nat {
    if w.Holding? && w.job == j then 1 else 0
  }

  // How many workers hold job j.
  ghost function InHand<J(!new)>(workers: seq<Worker<J>>, j: J): nat {
    if workers == [] then 0 else Held(workers[0], j) + InHand(workers[1..], j)
  }

  ghost function Live<J(!new)>(workers: seq<Worker<J>>): nat {
    if workers == [] then 0 else (if workers[0].Done? then 0 else 1) + Live(workers[1..])
  }

  ghost function Weight<J(!new)>(w: Worker<J>): nat {
    match w case Ready => 2 case Holding(_) => 4 case Returned => 1 case Done => 0
  }

  ghost function TotalWeight<J(!new)>(workers: seq<Worker<J>>): nat {
    if workers == [] then 0 else Weight(workers[0]) + TotalWeight(workers[1..])
  }

  // How many copies of j the pool accounts for, wherever they are.
  ghost function Copies<J(!new)>(p: Pool<J>, j: J): nat {
    multiset(p.unsent)[j] + multiset(p.jobQueue)[j] + InHand(p.workers, j)
    + multiset(p.resultQueue)[j] + multiset(p.received)[j]
  }

  /** Which channels are closed, and what that says about the goroutines. */
  ghost predicate Structure<J(!new)>(c: Config, p: Pool<J>) {
    && |p.workers| == c.workers
    && |p.jobQueue| <= c.jobCapacity && |p.resultQueue| <= c.resultCapacity
    && p.jobsClosed == !p.producing && (p.jobsClosed ==> p.unsent == [])
    && (forall w :: 0 <= w < |p.workers| && (p.workers[w].Returned? || p.workers[w].Done?) ==>
          p.jobsClosed && p.jobQueue == [])
    && p.resultsClosed == !p.closerWaiting
    && (p.resultsClosed ==> forall w :: 0 <= w < |p.workers| ==> p.workers[w].Done?)
    && (!p.receiving ==> p.resultsClosed && p.resultQueue == [])
  }

  ghost predicate Invariant<J(!new)>(c: Config, jobs: seq<J>, p: Pool<J>) {
    && !p.panicked
    && (forall j :: Copies(p, j) == multiset(jobs)[j])
    && p.waiting == Live(p.workers)
    && Structure(c, p)
    && (c.workers == 0 ==> p.resultQueue == [] && p.received == [] && p.jobQueue + p.unsent == jobs)
  }

  /** A bound on the steps still to come. */
  ghost function Measure<J(!new)>(p: Pool<J>): nat {
    4 * |p.unsent| + 3 * |p.jobQueue| + TotalWeight(p.workers) + |p.resultQueue|
    + (if p.producing then 1 else 0) + (if p.closerWaiting then 1 else 0) + (if p.receiving then 1 else 0)
  }

  lemma {:induction false} UpdateHeld<J(!new)>(workers: seq<Worker<J>>, w: nat, x: Worker<J>, j: J)
    requires w < |workers|
    ensures InHand(workers[w := x], j) + Held(workers[w], j) == InHand(workers, j) + Held(x, j)
  {
    var after := workers[w := x];
    if w == 0 {
      assert after[1..] == workers[1..];
    } else {
      UpdateHeld(workers[1..], w - 1, x, j);
      assert after[1..] == workers[1..][w - 1 := x];
    }
  }

  lemma {:induction false} UpdateWorker<J(!new)>(workers: seq<Worker<J>>, w: nat, x: Worker<J>)
    requires w < |workers|
    ensures Live(workers[w := x]) + (if workers[w].Done? then 0 else 1) == Live(workers) + (if x.Done? then 0 else 1)
    ensures TotalWeight(workers[w := x]) + Weight(workers[w]) == TotalWeight(workers) + Weight(x)
  {
    var after := workers[w := x];
    if w == 0 {
      assert after[1..] == workers[1..];
    } else {
      UpdateWorker(workers[1..], w - 1, x);
      assert after[1..] == workers[1..][w - 1 := x];
    }
  }

  lemma {:induction false} AllReady<J(!new)>(n: nat)
    ensures var ws: seq<Worker<J>> := seq(n, _ => Ready);
            (forall j :: InHand(ws, j) == 0) && Live(ws) == n && TotalWeight(ws) == 2 * n
  {
    if n > 0 {
      AllReady<J>(n - 1);
      var ws: seq<Worker<J>> := seq(n, _ => Ready);
      assert ws[1..] == seq(n - 1, _ => Ready);
    }
  }

  lemma {:induction false} LiveZero<J(!new)>(workers: seq<Worker<J>>)
    ensures Live(workers) == 0 <==> forall w :: 0 <= w < |workers| ==> workers[w].Done?
    ensures Live(workers) == 0 ==> forall j :: InHand(workers, j) == 0
  {
    if workers != [] {
      LiveZero(workers[1..]);
      if workers[0].Done? && (forall w :: 0 <= w < |workers[1..]| ==> workers[1..][w].Done?) {
        forall w | 0 <= w < |workers| ensures workers[w].Done? {
          if w > 0 { assert workers[w] == workers[1..][w - 1]; }
        }
      }
    }
  }

  lemma StartHolds<J(!new)>(c: Config, jobs: seq<J>)
    ensures Invariant(c, jobs, Start(c, jobs))
    ensures Measure(Start(c, jobs)) == 4 * |jobs| + 2 * c.workers + 3
  {
    AllReady<J>(c.workers);
    assert [] + jobs == jobs;
  }

  lemma HeadAndTail<J(!new)>(s: seq<J>)
    requires s != []
    ensures multiset(s) == multiset{s[0]} + multiset(s[1..])
  {
    assert s == [s[0]] + s[1..];
  }

  // How many copies of j the sequence has, by its ends.
  lemma CountHead<J(!new)>(s: seq<J>, j: J)
    requires s != []
    ensures multiset(s)[j] == multiset(s[1..])[j] + if s[0] == j then 1 else 0
  {
    HeadAndTail(s);
  }

  lemma CountLast<J(!new)>(s: seq<J>, x: J, j: J)
    ensures multiset(s + [x])[j] == multiset(s)[j] + if x == j then 1 else 0
  {
  }

  lemma SendConserves<J(!new)>(c: Config, p: Pool<J>, j: J)
    requires Enabled(c, p, SendJob)
    ensures Copies(Next(c, p, SendJob), j) == Copies(p, j)
  {
    CountHead(p.unsent, j);
    CountLast(p.jobQueue, p.unsent[0], j);
  }

  lemma TakeConserves<J(!new)>(c: Config, p: Pool<J>, w: nat, j: J)
    requires Enabled(c, p, TakeJob(w))
    ensures Copies(Next(c, p, TakeJob(w)), j) == Copies(p, j)
  {
    CountHead(p.jobQueue, j);
    UpdateHeld(p.workers, w, Holding(p.jobQueue[0]), j);
  }

  lemma AnswerConserves<J(!new)>(c: Config, p: Pool<J>, w: nat, j: J)
    requires Enabled(c, p, SendResult(w))
    ensures Copies(Next(c, p, SendResult(w)), j) == Copies(p, j)
  {
    CountLast(p.resultQueue, p.workers[w].job, j);
    UpdateHeld(p.workers, w, Ready, j);
  }

  lemma ReceiveConserves<J(!new)>(c: Config, p: Pool<J>, j: J)
    requires Enabled(c, p, Receive)
    ensures Copies(Next(c, p, Receive), j) == Copies(p, j)
  {
    CountHead(p.resultQueue, j);
    CountLast(p.received, p.resultQueue[0], j);
  }

  lemma StepConserves<J(!new)>(c: Config, p: Pool<J>, step: Step, j: J)
    requires Enabled(c, p, step)
    ensures Copies(Next(c, p, step), j) == Copies(p, j)
  {
    match step
    case SendJob => SendConserves(c, p, j);
    case Receive => ReceiveConserves(c, p, j);
    case TakeJob(w) => TakeConserves(c, p, w, j);
    case SendResult(w) => AnswerConserves(c, p, w, j);
    case LeaveLoop(w) => UpdateHeld(p.workers, w, Returned, j);
    case SignalDone(w) => UpdateHeld(p.workers, w, Done, j);
    case CloseJobs =>
    case CloseResults =>
    case EndReceive =>
  }

  lemma StepDescends<J(!new)>(c: Config, jobs: seq<J>, p: Pool<J>, step: Step)
    requires c.Valid() && Invariant(c, jobs, p) && Enabled(c, p, step)
    ensures !Next(c, p, step).panicked
    ensures Next(c, p, step).waiting == Live(Next(c, p, step).workers)
    ensures Measure(Next(c, p, step)) < Measure(p)
  {
    LiveZero(p.workers);
    match step
    case TakeJob(w) => UpdateWorker(p.workers, w, Holding(p.jobQueue[0]));
    case SendResult(w) => UpdateWorker(p.workers, w, Ready);
    case LeaveLoop(w) => UpdateWorker(p.workers, w, Returned);
    case SignalDone(w) => UpdateWorker(p.workers, w, Done);
    case SendJob =>
    case CloseJobs =>
    case CloseResults =>
    case Receive =>
    case EndReceive =>
  }

  lemma StepStructure<J(!new)>(c: Config, p: Pool<J>, step: Step)
    requires c.Valid() && Enabled(c, p, step) && Structure(c, p) && p.waiting == Live(p.workers)
    requires !Next(c, p, step).panicked
    ensures Structure(c, Next(c, p, step))
  {
    LiveZero(p.workers);
  }

  /** No step sends on a closed channel or loses a job, and every step lowers the measure. */
  lemma StepKeeps<J(!new)>(c: Config, jobs: seq<J>, p: Pool<J>, step: Step)
    requires c.Valid() && Invariant(c, jobs, p) && Enabled(c, p, step)
    ensures Invariant(c, jobs, Next(c, p, step))
    ensures Measure(Next(c, p, step)) < Measure(p)
  {
    forall j ensures Copies(Next(c, p, step), j) == multiset(jobs)[j] {
      StepConserves(c, p, step, j);
    }
    StepDescends(c, jobs, p, step);
    StepStructure(c, p, step);
    if c.workers == 0 && step == SendJob {
      assert p.jobQueue + p.unsent == (p.jobQueue + [p.unsent[0]]) + p.unsent[1..];
    }
  }

  lemma {:induction false} RunKeeps<J(!new)>(c: Config, jobs: seq<J>, p: Pool<J>, steps: seq<Step>, q: Pool<J>)
    requires c.Valid() && Invariant(c, jobs, p) && IsRun(c, p, steps, q)
    ensures Invariant(c, jobs, q)
    ensures |steps| + Measure(q) <= Measure(p)
    decreases |steps|
  {
    if steps != [] {
      StepKeeps(c, jobs, p, steps[0]);
      RunKeeps(c, jobs, Next(c, p, steps[0]), steps[1..], q);
    }
  }

  // ----- Main results -----

  /** Safety over every schedule: no panic, no job lost or duplicated, the result channel closed only after
      every worker has returned; and no schedule is longer than a bound fixed by the jobs and workers. */
  lemma PoolIsSafe<J(!new)>(c: Config, jobs: seq<J>, steps: seq<Step>, q: Pool<J>)
    requires c.Valid() && IsRun(c, Start(c, jobs), steps, q)
    ensures !q.panicked
    ensures forall j :: Copies(q, j) == multiset(jobs)[j]
    ensures q.resultsClosed ==>
      (forall j :: InHand(q.workers, j) == 0) && forall w :: 0 <= w < |q.workers| ==> q.workers[w].Done?
    ensures |steps| <= 4 * |jobs| + 2 * c.workers + 3
  {
    StartHolds(c, jobs);
    RunKeeps(c, jobs, Start(c, jobs), steps, q);
    LiveZero(q.workers);
  }

  /** When the receive loop has ended, each job was answered exactly once, if and only if there was a worker
      at all or nothing to do. */
  lemma AnsweredExactlyOnce<J(!new)>(c: Config, jobs: seq<J>, steps: seq<Step>, q: Pool<J>)
    requires c.Valid() && IsRun(c, Start(c, jobs), steps, q) && !q.receiving
    ensures multiset(q.received) == multiset(jobs) <==> c.workers > 0 || jobs == []
    ensures c.workers == 0 ==> q.received == []
  {
    StartHolds(c, jobs);
    RunKeeps(c, jobs, Start(c, jobs), steps, q);
    LiveZero(q.workers);
    if c.workers > 0 {
      assert q.workers[0].Done?;
      forall j ensures multiset(q.received)[j] == multiset(jobs)[j] {
        assert Copies(q, j) == multiset(jobs)[j];
      }
    } else if jobs != [] {
      assert jobs[0] in multiset(jobs);
    }
  }

  /** Progress: while the caller still receives, some step is enabled; with at least one worker a stuck pool
      has no goroutine left at all. */
  lemma NoDeadlock<J(!new)>(c: Config, jobs: seq<J>, p: Pool<J>)
    requires c.Valid() && Invariant(c, jobs, p) && Stuck(c, p)
    ensures !p.receiving && !p.closerWaiting
    ensures p.producing <==> c.workers == 0 && |jobs| > c.jobCapacity
    ensures forall w :: 0 <= w < |p.workers| ==> p.workers[w].Done?
  {
    assert !Enabled(c, p, Receive) && !Enabled(c, p, EndReceive);
    assert !Enabled(c, p, SendJob) && !Enabled(c, p, CloseJobs) && !Enabled(c, p, CloseResults);
    LiveZero(p.workers);
    forall w | 0 <= w < |p.workers| ensures p.workers[w].Done? {
      assert !Enabled(c, p, TakeJob(w)) && !Enabled(c, p, SendResult(w));
      assert !Enabled(c, p, LeaveLoop(w)) && !Enabled(c, p, SignalDone(w));
    }
    if c.workers > 0 {
      assert p.workers[0].Done?;
    } else if p.producing {
      assert |jobs| == |p.jobQueue| + |p.unsent|;
    }
  }

  /** Every schedule that cannot be extended has ended the receive loop; with workers, nothing still runs. */
  lemma EveryMaximalRunCompletes<J(!new)>(c: Config, jobs: seq<J>, steps: seq<Step>, q: Pool<J>)
    requires c.Valid() && IsRun(c, Start(c, jobs), steps, q) && Stuck(c, q)
    ensures !q.receiving
    ensures c.workers > 0 ==> multiset(q.received) == multiset(jobs) && !q.producing
    ensures c.workers == 0 ==> q.received == [] && q.jobQueue + q.unsent == jobs && |q.jobQueue| <= c.jobCapacity
    ensures c.workers == 0 && |jobs| > c.jobCapacity ==> q.producing
  {
    StartHolds(c, jobs);
    RunKeeps(c, jobs, Start(c, jobs), steps, q);
    NoDeadlock(c, jobs, q);
    AnsweredExactlyOnce(c, jobs, steps, q);
  }

  /** Any reachable pool can be driven to a stuck one, so completing schedules exist. */
  lemma {:induction false} CanFinish<J(!new)>(c: Config, jobs: seq<J>, p: Pool<J>)
      returns (steps: seq<Step>, q: Pool<J>)
    requires c.Valid() && Invariant(c, jobs, p)
    ensures IsRun(c, p, steps, q) && Stuck(c, q)
    decreases Measure(p)
  {
    if Stuck(c, p) {
      steps, q := [], p;
    } else {
      var step :| Enabled(c, p, step);
      StepKeeps(c, jobs, p, step);
      var rest;
      rest, q := CanFinish(c, jobs, Next(c, p, step));
      steps := [step] + rest;
    }
  }

  /** `received` is a stream the caller may see: the receive loop of some schedule ended with it. */
  ghost predicate Delivers<J(!new)>(c: Config, jobs: seq<J>, received: seq<J>) {
    exists steps: seq<Step>, q: Pool<J> :: IsRun(c, Start(c, jobs), steps, q) && !q.receiving && q.received == received
  }

  lemma DeliveredOnce<J(!new)>(c: Config, jobs: seq<J>, received: seq<J>)
    requires c.Valid() && Delivers(c, jobs, received)
    ensures multiset(received) == multiset(jobs) <==> c.workers > 0 || jobs == []
    ensures c.workers == 0 ==> received == []
  {
    var steps: seq<Step>, q: Pool<J> :|
      IsRun(c, Start(c, jobs), steps, q) && !q.receiving && q.received == received;
    AnsweredExactlyOnce(c, jobs, steps, q);
  }

  // ----- The order of the answers is the schedule's -----

  lemma {:induction false} RunThenRun<J(!new)>(c: Config, p: Pool<J>, first: seq<Step>, m: Pool<J>, rest: seq<Step>,
                                        q: Pool<J>)
    requires IsRun(c, p, first, m) && IsRun(c, m, rest, q)
    ensures IsRun(c, p, first + rest, q)
    decreases |first|
  {
    if first == [] {
      assert first + rest == rest;
    } else {
      RunThenRun(c, Next(c, p, first[0]), first[1..], m, rest, q);
      assert (first + rest)[1..] == first[1..] + rest;
    }
  }

  /** Some schedule leads to this pool. */
  ghost predicate CanReach<J(!new)>(c: Config, jobs: seq<J>, p: Pool<J>) {
    exists steps: seq<Step> :: IsRun(c, Start(c, jobs), steps, p)
  }

  lemma ReachNext<J(!new)>(c: Config, jobs: seq<J>, p: Pool<J>, step: Step)
    requires CanReach(c, jobs, p) && Enabled(c, p, step)
    ensures CanReach(c, jobs, Next(c, p, step))
  {
    var steps: seq<Step> :| IsRun(c, Start(c, jobs), steps, p);
    var q := Next(c, p, step);
    assert IsRun(c, q, [], q) && [step][1..] == [];
    RunThenRun(c, Start(c, jobs), steps, p, [step], q);
  }

  lemma StepGrows<J(!new)>(c: Config, p: Pool<J>, step: Step)
    requires Enabled(c, p, step)
    ensures p.received <= Next(c, p, step).received
  {
  }

  lemma {:induction false} ReceivedGrows<J(!new)>(c: Config, p: Pool<J>, steps: seq<Step>, q: Pool<J>)
    requires IsRun(c, p, steps, q)
    ensures p.received <= q.received
    decreases |steps|
  {
    if steps != [] {
      StepGrows(c, p, steps[0]);
      ReceivedGrows(c, Next(c, p, steps[0]), steps[1..], q);
    }
  }

  /** The first k jobs have left the producer, `received` have been received, and but for worker 0 all is at rest. */
  ghost function Resting<J(!new)>(c: Config, jobs: seq<J>, k: nat, first: Worker<J>, received: seq<J>): Pool<J>
    requires k <= |jobs| && c.workers > 0
  {
    var start := Start(c, jobs);
    start.(unsent := jobs[k..], workers := start.workers[0 := first], received := received)
  }

  // Worker 1 answers the next job.
  lemma AnswerNext<J(!new)>(c: Config, jobs: seq<J>, k: nat, first: Worker<J>, received: seq<J>)
    requires c.Valid() && c.workers >= 2 && k < |jobs| && CanReach(c, jobs, Resting(c, jobs, k, first, received))
    ensures CanReach(c, jobs, Resting(c, jobs, k + 1, first, received + [jobs[k]]))
  {
    var p := Resting(c, jobs, k, first, received);
    ReachNext(c, jobs, p, SendJob);
    p := Next(c, p, SendJob);
    ReachNext(c, jobs, p, TakeJob(1));
    p := Next(c, p, TakeJob(1));
    ReachNext(c, jobs, p, SendResult(1));
    p := Next(c, p, SendResult(1));
    ReachNext(c, jobs, p, Receive);
    assert Next(c, p, Receive) == Resting(c, jobs, k + 1, first, received + [jobs[k]]);
  }

  lemma {:induction false} AnswerUpTo<J(!new)>(c: Config, jobs: seq<J>, k: nat, n: nat, first: Worker<J>,
                                        received: seq<J>)
    requires c.Valid() && c.workers >= 2 && k <= n <= |jobs| && CanReach(c, jobs, Resting(c, jobs, k, first, received))
    ensures CanReach(c, jobs, Resting(c, jobs, n, first, received + jobs[k..n]))
    decreases n - k
  {
    if k == n {
      assert received + jobs[k..n] == received;
    } else {
      AnswerNext(c, jobs, k, first, received);
      AnswerUpTo(c, jobs, k + 1, n, first, received + [jobs[k]]);
      assert received + jobs[k..n] == received + [jobs[k]] + jobs[k + 1..n];
    }
  }

  lemma TakeByFirst<J(!new)>(c: Config, jobs: seq<J>, k: nat, received: seq<J>)
    requires c.Valid() && c.workers >= 2 && k < |jobs| && CanReach(c, jobs, Resting(c, jobs, k, Ready, received))
    ensures CanReach(c, jobs, Resting(c, jobs, k + 1, Holding(jobs[k]), received))
  {
    var p := Resting(c, jobs, k, Ready, received);
    ReachNext(c, jobs, p, SendJob);
    p := Next(c, p, SendJob);
    ReachNext(c, jobs, p, TakeJob(0));
    assert Next(c, p, TakeJob(0)) == Resting(c, jobs, k + 1, Holding(jobs[k]), received);
  }

  lemma AnswerByFirst<J(!new)>(c: Config, jobs: seq<J>, j: J, received: seq<J>)
    requires c.Valid() && c.workers >= 2 && CanReach(c, jobs, Resting(c, jobs, |jobs|, Holding(j), received))
    ensures CanReach(c, jobs, Resting(c, jobs, |jobs|, Ready, received + [j]))
  {
    var p := Resting(c, jobs, |jobs|, Holding(j), received);
    ReachNext(c, jobs, p, SendResult(0));
    p := Next(c, p, SendResult(0));
    ReachNext(c, jobs, p, Receive);
    assert Next(c, p, Receive) == Resting(c, jobs, |jobs|, Ready, received + [j]);
  }

  // Once everything has been received the schedule can be completed, and nothing is added.
  lemma DeliversReceived<J(!new)>(c: Config, jobs: seq<J>, p: Pool<J>)
    requires c.Valid() && c.workers > 0 && CanReach(c, jobs, p) && multiset(p.received) == multiset(jobs)
    ensures Delivers(c, jobs, p.received)
  {
    var steps: seq<Step> :| IsRun(c, Start(c, jobs), steps, p);
    StartHolds(c, jobs);
    RunKeeps(c, jobs, Start(c, jobs), steps, p);
    var rest, q := CanFinish(c, jobs, p);
    ReceivedGrows(c, p, rest, q);
    RunThenRun(c, Start(c, jobs), steps, p, rest, q);
    EveryMaximalRunCompletes(c, jobs, steps + rest, q);
    assert |q.received| == |multiset(q.received)| == |multiset(p.received)| == |p.received|;
  }

  /** The jobs with one of them moved to the end. */
  function HeldBack<J>(jobs: seq<J>, k: nat): seq<J>
    requires k < |jobs|
  {
    jobs[..k] + jobs[k + 1..] + [jobs[k]]
  }

  lemma HeldBackPermutes<J(!new)>(jobs: seq<J>, k: nat)
    requires k < |jobs|
    ensures multiset(HeldBack(jobs, k)) == multiset(jobs)
  {
    assert jobs == jobs[..k] + [jobs[k]] + jobs[k + 1..];
  }

  /** With two workers any one answer can be the last to arrive, all others coming in the order of the jobs: one worker
      holds that job while another answers the rest. */
  lemma AnyAnswerLast<J(!new)>(c: Config, jobs: seq<J>, k: nat)
    requires c.Valid() && c.workers >= 2 && k < |jobs|
    ensures Delivers(c, jobs, HeldBack(jobs, k))
  {
    var start := Start(c, jobs);
    assert IsRun(c, start, [], start);
    assert start == Resting(c, jobs, 0, Ready, []) by {
      assert jobs[0..] == jobs && start.workers[0 := Ready] == start.workers;
    }
    AnswerUpTo(c, jobs, 0, k, Ready, []);
    assert [] + jobs[0..k] == jobs[..k];
    TakeByFirst(c, jobs, k, jobs[..k]);
    AnswerUpTo(c, jobs, k + 1, |jobs|, Holding(jobs[k]), jobs[..k]);
    assert jobs[k + 1..|jobs|] == jobs[k + 1..];
    AnswerByFirst(c, jobs, jobs[k], jobs[..k] + jobs[k + 1..]);
    HeldBackPermutes(jobs, k);
    DeliversReceived(c, jobs, Resting(c, jobs, |jobs|, Ready, HeldBack(jobs, k)));
  }
}
