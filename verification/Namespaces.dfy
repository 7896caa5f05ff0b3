/** kubeops' second use of the worker pool: which namespaces may the user see? */
module Namespaces {
  import opened Sequences
  import opened WorkerPool

  // The access review of one namespace; an error is logged and the namespace left out.
  datatype Review = Allowed | Denied | Failed

  function Keep(review: string -> Review): string -> seq<string> {
    (ns: string) => if review(ns).Allowed? then [ns] else []
  }

  function Permitted(namespaces: seq<string>, review: string -> Review): seq<string> {
    FlatMap(Keep(review), namespaces)
  }

  lemma {:induction false} PermittedCount(namespaces: seq<string>, review: string -> Review, ns: string)
    ensures multiset(Permitted(namespaces, review))[ns]
            == if review(ns) == Allowed then multiset(namespaces)[ns] else 0
  {
    if namespaces != [] {
      PermittedCount(namespaces[1..], review, ns);
      assert namespaces == [namespaces[0]] + namespaces[1..];
      assert Permitted(namespaces, review) == Keep(review)(namespaces[0]) + Permitted(namespaces[1..], review);
    }
  }

  /** One worker per namespace up to the client's limit, and as many slots in either channel. */
  function PoolFor(namespaces: seq<string>, maxWorkers: nat): (c: Config)
    ensures c.workers <= maxWorkers && c.workers <= |namespaces|
    ensures c.workers == maxWorkers || c.workers == |namespaces|
  {
    var workers := if |namespaces| < maxWorkers then |namespaces| else maxWorkers;
    Config(workers, workers, workers)
  }

  /** The limit is the client's QPS cut to an integer.  Every permitted namespace is returned, as often as it
      was listed, unless that limit is zero: then nothing is checked and nothing returned. */
  method FilterAllowedNamespaces(namespaces: seq<string>, maxWorkers: nat, results: seq<string>,
                                 review: string -> Review) returns (allowed: seq<string>)
    requires Delivers(PoolFor(namespaces, maxWorkers), namespaces, results)
    ensures maxWorkers > 0 ==> forall ns ::
      multiset(allowed)[ns] == if review(ns) == Allowed then multiset(namespaces)[ns] else 0
    ensures maxWorkers == 0 ==> allowed == []
  {
    DeliveredOnce(PoolFor(namespaces, maxWorkers), namespaces, results);
    allowed := [];
    for i := 0 to |results|
      invariant allowed == Permitted(results[..i], review)
    {
      assert results[..i + 1] == results[..i] + [results[i]];
      FlatMapSnoc(Keep(review), results[..i], results[i]);
      if review(results[i]).Allowed? {
        allowed := allowed + [results[i]];
      }
    }
    assert results[..|results|] == results;
    if maxWorkers > 0 {
      FlatMapPermuted(Keep(review), results, namespaces);
      forall ns
        ensures multiset(allowed)[ns] == if review(ns) == Allowed then multiset(namespaces)[ns] else 0
      {
        PermittedCount(namespaces, review, ns);
      }
    }
  }

  /** With a limit of zero the producer's first send never completes: the goroutine is left behind. */
  lemma ZeroLimitLeaksProducer(namespaces: seq<string>, steps: seq<Step>, q: Pool<string>)
    requires namespaces != [] && IsRun(PoolFor(namespaces, 0), Start(PoolFor(namespaces, 0), namespaces), steps, q)
    requires Stuck(PoolFor(namespaces, 0), q)
    ensures !q.receiving && q.received == [] && q.producing && q.unsent == namespaces
  {
    var c := PoolFor(namespaces, 0);
    EveryMaximalRunCompletes(c, namespaces, steps, q);
    assert q.jobQueue == [] && [] + q.unsent == q.unsent;
  }
}
