/** OCIRegistry: dropping the tags that are no Helm charts and pulling the rest, both through the worker
    pool.  `results` is the stream the pool delivers; its order is up to the schedule. */
module OciRegistry {
  import opened Sequences
  import opened Sorting
  import opened Wrappers
  import opened WorkerPool

  datatype TagList = TagList(name: string, tags: seq<string>)

  datatype CheckTag = CheckTag(app: string, tag: string)

  // The registry's answer on a tag; a failed request is logged and the tag dropped.
  datatype Verdict = HelmChart | NotHelmChart | Failed

  const NUM_WORKERS := 10
  const POOL := Config(NUM_WORKERS, NUM_WORKERS, NUM_WORKERS)

  /** The semver library: a parser, the canonical form of a version, `newer` for "not of lower precedence
      than" and some sorting routine for it. */
  datatype Semver<!V> = Semver(parse: string -> Option<V>, show: V -> string, newer: (V, V) -> bool,
                               sort: seq<V> -> seq<V>)

  ghost predicate Lawful<V(!new)>(sv: Semver<V>) {
    TotalPreorder(sv.newer) && Sorts(sv.newer, sv.sort) && forall v :: sv.parse(sv.show(v)) == Some(v)
  }

  // Reading a Go map: a missing key gives the zero TagList.
  function Lookup(tags: map<string, TagList>, app: string): TagList {
    if app in tags then tags[app] else TagList("", [])
  }

  function AppJobs(app: string, tags: seq<string>): seq<CheckTag> {
    seq(|tags|, i requires 0 <= i < |tags| => CheckTag(app, tags[i]))
  }

  /** What the producer sends, in order. */
  function Jobs(repositories: seq<string>, tags: map<string, TagList>): seq<CheckTag> {
    FlatMap(app => AppJobs(app, Lookup(tags, app).tags), repositories)
  }

  function Keep(check: CheckTag -> Verdict, app: string): CheckTag -> seq<string> {
    (result: CheckTag) => if result.app == app && check(result).HelmChart? then [result.tag] else []
  }

  function Accepted(results: seq<CheckTag>, check: CheckTag -> Verdict, app: string): seq<string> {
    FlatMap(Keep(check, app), results)
  }

  predicate AllParse<V>(sv: Semver<V>, tags: seq<string>) {
    forall t :: t in tags ==> sv.parse(t).Some?
  }

  function Parsed<V>(sv: Semver<V>, tags: seq<string>): (vs: seq<V>)
    requires AllParse(sv, tags)
    ensures |vs| == |tags| && forall i :: 0 <= i < |tags| ==> sv.parse(tags[i]) == Some(vs[i])
  {
    seq(|tags|, i requires 0 <= i < |tags| => sv.parse(tags[i]).value)
  }

  /** `out` lists the canonical forms of the accepted tags, newest first. */
  ghost predicate NewestFirst<V(!new)>(sv: Semver<V>, accepted: seq<string>, out: seq<string>) {
    && AllParse(sv, accepted)
    && exists vs :: IsSorting(sv.newer, Parsed(sv, accepted), vs) && out == Map(sv.show, vs)
  }

  /** The tags of one repository after a sequential loop over the listed tags. */
  function SequentialTags<V>(sv: Semver<V>, repositories: seq<string>, tags: map<string, TagList>,
                             check: CheckTag -> Verdict, app: string): TagList
    requires AllParse(sv, Accepted(Jobs(repositories, tags), check, app))
  {
    var accepted := Accepted(Jobs(repositories, tags), check, app);
    TagList(if accepted == [] then "" else Lookup(tags, app).name,
            Map(sv.show, sv.sort(Parsed(sv, accepted))))
  }

  /** Where a tag that was found to be a Helm chart is listed: position i of the repositories, position k of its
      list. */
  ghost function ListedAt(repositories: seq<string>, tags: map<string, TagList>, check: CheckTag -> Verdict,
                          app: string, tag: string): set<(int, int)>
  {
    set i, k | 0 <= i < |repositories| && repositories[i] in tags && 0 <= k < |tags[repositories[i]].tags|
               && repositories[i] == app && tags[repositories[i]].tags[k] == tag
               && check(CheckTag(app, tag)) == HelmChart :: (i, k)
  }

  /** A tag is accepted as often as the repository's list has it, for every time the repository is listed, if it was
      found to be a Helm chart. */
  lemma AcceptedAreListed(repositories: seq<string>, tags: map<string, TagList>, check: CheckTag -> Verdict,
                          app: string, tag: string)
    ensures multiset(Accepted(Jobs(repositories, tags), check, app))[tag]
      == |ListedAt(repositories, tags, check, app, tag)|
  {
    var g := (app': string) => AppJobs(app', Lookup(tags, app').tags);
    var hit := (u: CheckTag) => u.app == app && u.tag == tag && check(u) == HelmChart;
    JobsAre(repositories, tags, g);
    CountPairs(g, Keep(check, app), repositories, tag, hit);
    ListedPairs(repositories, tags, check, app, tag, g, hit);
  }

  lemma JobsAre(repositories: seq<string>, tags: map<string, TagList>, g: string -> seq<CheckTag>)
    requires forall app :: g(app) == AppJobs(app, Lookup(tags, app).tags)
    ensures Jobs(repositories, tags) == FlatMap(g, repositories)
  {
    FlatMapSame((app: string) => AppJobs(app, Lookup(tags, app).tags), g, repositories);
  }

  lemma ListedPairs(repositories: seq<string>, tags: map<string, TagList>, check: CheckTag -> Verdict, app: string,
                    tag: string, g: string -> seq<CheckTag>, hit: CheckTag -> bool)
    requires forall app' :: g(app') == AppJobs(app', Lookup(tags, app').tags)
    requires forall u :: hit(u) <==> u.app == app && u.tag == tag && check(u) == HelmChart
    ensures PairPositions(repositories, g, hit) == ListedAt(repositories, tags, check, app, tag)
  {
  }

  /** A listing has every accepted tag once, in its canonical form, and nothing stands behind something older: of the
      first one no accepted tag is newer. */
  lemma ListingMeans<V(!new)>(sv: Semver<V>, accepted: seq<string>, out: seq<string>)
    requires Lawful(sv) && NewestFirst(sv, accepted, out)
    ensures |out| == |accepted| && AllParse(sv, accepted) && AllParse(sv, out)
    ensures forall c :: multiset(out)[c] == |set i | 0 <= i < |accepted| && sv.show(sv.parse(accepted[i]).value) == c|
    ensures forall i, j :: 0 <= i < j < |out| ==> sv.newer(sv.parse(out[i]).value, sv.parse(out[j]).value)
    ensures forall t :: t in accepted ==> sv.newer(sv.parse(out[0]).value, sv.parse(t).value)
  {
    var vs :| IsSorting(sv.newer, Parsed(sv, accepted), vs) && out == Map(sv.show, vs);
    CanonicalParses(sv, accepted, out);
    SameMembers(vs, Parsed(sv, accepted));
    forall i | 0 <= i < |vs| ensures sv.parse(out[i]) == Some(vs[i]) {
      assert sv.parse(sv.show(vs[i])) == Some(vs[i]);
    }
    forall c ensures multiset(out)[c] == |set i | 0 <= i < |accepted| && sv.show(sv.parse(accepted[i]).value) == c| {
      CanonicalCount(sv, accepted, vs, c);
    }
    forall t | t in accepted ensures sv.newer(sv.parse(out[0]).value, sv.parse(t).value) {
      var i :| 0 <= i < |accepted| && accepted[i] == t;
      assert Parsed(sv, accepted)[i] in vs;
      var j :| 0 <= j < |vs| && vs[j] == Parsed(sv, accepted)[i];
      assert sv.newer(vs[0], vs[0]) && (j > 0 ==> sv.newer(vs[0], vs[j]));
    }
  }

  lemma CanonicalCount<V(!new)>(sv: Semver<V>, accepted: seq<string>, vs: seq<V>, c: string)
    requires AllParse(sv, accepted) && multiset(vs) == multiset(Parsed(sv, accepted))
    ensures multiset(Map(sv.show, vs))[c]
            == |set i | 0 <= i < |accepted| && sv.show(sv.parse(accepted[i]).value) == c|
  {
    var ps := Parsed(sv, accepted);
    var f := (v: V) => [sv.show(v)];
    MapPermuted(sv.show, vs, ps);
    MapIsFlatMap(sv.show, ps);
    FlatMapSame((v: V) => [sv.show(v)], f, ps);
    var hit := (v: V) => sv.show(v) == c;
    CountPositions(f, ps, c, hit);
    assert Positions(ps, hit)
        == set i | 0 <= i < |accepted| && sv.show(sv.parse(accepted[i]).value) == c;
  }

  // ----- The order of the stream does not matter -----

  lemma ParsedPermuted<V(!new)>(sv: Semver<V>, a: seq<string>, b: seq<string>)
    requires multiset(a) == multiset(b) && AllParse(sv, a) && AllParse(sv, b)
    ensures multiset(Parsed(sv, a)) == multiset(Parsed(sv, b))
  {
    SameMembers(a, b);
    if a != [] {
      var first := Parsed(sv, a)[0];
      var f := (t: string) => var p := sv.parse(t); if p.Some? then p.value else first;
      assert Parsed(sv, a) == Map(f, a) && Parsed(sv, b) == Map(f, b);
      MapPermuted(f, a, b);
    }
  }

  lemma NewestFirstPermuted<V(!new)>(sv: Semver<V>, a: seq<string>, b: seq<string>, out: seq<string>)
    requires multiset(a) == multiset(b) && NewestFirst(sv, a, out)
    ensures NewestFirst(sv, b, out)
  {
    SameMembers(a, b);
    ParsedPermuted(sv, a, b);
    var vs :| IsSorting(sv.newer, Parsed(sv, a), vs) && out == Map(sv.show, vs);
    assert IsSorting(sv.newer, Parsed(sv, b), vs);
  }

  /** Sorting the canonical forms once more only lists the same tags again. */
  lemma ResortKeeps<V(!new)>(sv: Semver<V>, accepted: seq<string>, once: seq<string>, twice: seq<string>)
    requires Lawful(sv) && NewestFirst(sv, accepted, once)
    requires AllParse(sv, once) && twice == Map(sv.show, sv.sort(Parsed(sv, once)))
    ensures NewestFirst(sv, accepted, twice)
  {
    var vs :| IsSorting(sv.newer, Parsed(sv, accepted), vs) && once == Map(sv.show, vs);
    assert Parsed(sv, once) == vs;
    assert IsSorting(sv.newer, vs, sv.sort(vs));
    assert IsSorting(sv.newer, Parsed(sv, accepted), sv.sort(vs));
  }

  lemma CanonicalParses<V(!new)>(sv: Semver<V>, accepted: seq<string>, out: seq<string>)
    requires Lawful(sv) && NewestFirst(sv, accepted, out)
    ensures AllParse(sv, out)
  {
    var vs :| IsSorting(sv.newer, Parsed(sv, accepted), vs) && out == Map(sv.show, vs);
    forall t | t in out ensures sv.parse(t).Some? {
      var i :| 0 <= i < |out| && out[i] == t;
      assert sv.parse(sv.show(vs[i])) == Some(vs[i]);
    }
  }

  ghost predicate TiesHarmless<V(!new)>(sv: Semver<V>, accepted: seq<string>)
    requires AllParse(sv, accepted)
  {
    TiesLookAlike(sv.newer, sv.show, Parsed(sv, accepted))
  }

  /** Which listing comes out is settled by the accepted tags alone exactly when tags of equal precedence
      have the same canonical form. */
  lemma OneListingIffTiesHarmless<V(!new)>(sv: Semver<V>, accepted: seq<string>)
    requires Lawful(sv) && AllParse(sv, accepted)
    ensures TiesHarmless(sv, accepted) <==>
            forall a, b :: NewestFirst(sv, accepted, a) && NewestFirst(sv, accepted, b) ==> a == b
  {
    var vs := Parsed(sv, accepted);
    OneAnswerIffTiesLookAlike(sv.newer, sv.show, vs);
    if TiesHarmless(sv, accepted) {
      forall a, b | NewestFirst(sv, accepted, a) && NewestFirst(sv, accepted, b) ensures a == b {
        var xs :| IsSorting(sv.newer, vs, xs) && a == Map(sv.show, xs);
        var ys :| IsSorting(sv.newer, vs, ys) && b == Map(sv.show, ys);
      }
    } else {
      var xs, ys :| IsSorting(sv.newer, vs, xs) && IsSorting(sv.newer, vs, ys) && Map(sv.show, xs) != Map(sv.show, ys);
      assert NewestFirst(sv, accepted, Map(sv.show, xs)) && NewestFirst(sv, accepted, Map(sv.show, ys));
    }
  }

  lemma SequentialIsNewestFirst<V(!new)>(sv: Semver<V>, repositories: seq<string>, tags: map<string, TagList>,
                                         check: CheckTag -> Verdict, app: string)
    requires Lawful(sv) && AllParse(sv, Accepted(Jobs(repositories, tags), check, app))
    ensures NewestFirst(sv, Accepted(Jobs(repositories, tags), check, app),
                        SequentialTags(sv, repositories, tags, check, app).tags)
  {
    var vs := Parsed(sv, Accepted(Jobs(repositories, tags), check, app));
    assert IsSorting(sv.newer, vs, sv.sort(vs));
  }

  /** The second loop of FilterIndex, once it has dealt with the repositories in `done`. */
  ghost predicate OrderedSoFar<V(!new)>(sv: Semver<V>, before: map<string, TagList>, tags: map<string, TagList>,
                                        done: seq<string>)
  {
    && (forall app :: app in done ==>
          app in tags && tags[app].name == Lookup(before, app).name
          && NewestFirst(sv, Lookup(before, app).tags, tags[app].tags))
    && (forall app :: app !in done ==> Lookup(tags, app) == Lookup(before, app))
  }

  function Reordered<V>(sv: Semver<V>, list: TagList): TagList
    requires AllParse(sv, list.tags)
  {
    TagList(list.name, Map(sv.show, sv.sort(Parsed(sv, list.tags))))
  }

  lemma OrderAgain<V(!new)>(sv: Semver<V>, before: map<string, TagList>, tags: map<string, TagList>,
                            done: seq<string>, app: string)
    requires Lawful(sv) && OrderedSoFar(sv, before, tags, done) && app in done
    ensures AllParse(sv, Lookup(tags, app).tags)
    ensures NewestFirst(sv, Lookup(before, app).tags, Reordered(sv, Lookup(tags, app)).tags)
  {
    var current := Lookup(tags, app);
    CanonicalParses(sv, Lookup(before, app).tags, current.tags);
    ResortKeeps(sv, Lookup(before, app).tags, current.tags, Reordered(sv, current).tags);
  }

  lemma OrderFirst<V(!new)>(sv: Semver<V>, list: TagList)
    requires Lawful(sv) && AllParse(sv, list.tags)
    ensures NewestFirst(sv, list.tags, Reordered(sv, list).tags)
  {
    assert IsSorting(sv.newer, Parsed(sv, list.tags), sv.sort(Parsed(sv, list.tags)));
  }

  lemma PutOrdered<V(!new)>(sv: Semver<V>, before: map<string, TagList>, tags: map<string, TagList>,
                            done: seq<string>, app: string, list: TagList)
    requires OrderedSoFar(sv, before, tags, done)
    requires list.name == Lookup(before, app).name && NewestFirst(sv, Lookup(before, app).tags, list.tags)
    ensures OrderedSoFar(sv, before, tags[app := list], done + [app])
  {
  }

  lemma OrderOne<V(!new)>(sv: Semver<V>, before: map<string, TagList>, tags: map<string, TagList>,
                          done: seq<string>, app: string)
    requires Lawful(sv) && OrderedSoFar(sv, before, tags, done)
    ensures AllParse(sv, Lookup(tags, app).tags) <==> app in done || AllParse(sv, Lookup(before, app).tags)
    ensures AllParse(sv, Lookup(tags, app).tags) ==>
      OrderedSoFar(sv, before, tags[app := Reordered(sv, Lookup(tags, app))], done + [app])
  {
    var current := Lookup(tags, app);
    if app in done {
      OrderAgain(sv, before, tags, done, app);
    } else if AllParse(sv, current.tags) {
      OrderFirst(sv, current);
    }
    if AllParse(sv, current.tags) {
      PutOrdered(sv, before, tags, done, app, Reordered(sv, current));
    }
  }

  /** A list without tags has no name, any other the one it had. */
  ghost predicate NamedAsBefore(before: map<string, TagList>, app: string, list: TagList) {
    if list.tags == [] then list.name == "" else app in before && list.name == before[app].name
  }

  lemma AcceptedIsListed(repositories: seq<string>, tags: map<string, TagList>, check: CheckTag -> Verdict, app: string)
    ensures Accepted(Jobs(repositories, tags), check, app) != [] ==> app in tags
  {
    var accepted := Accepted(Jobs(repositories, tags), check, app);
    if accepted != [] {
      AcceptedAreListed(repositories, tags, check, app, accepted[0]);
      assert ListedAt(repositories, tags, check, app, accepted[0]) != {};
    }
  }

  /** FilterIndex as a whole, for one repository: `listed` is its list after the receive loop. */
  lemma FilteredRight<V(!new)>(sv: Semver<V>, repositories: seq<string>, before: map<string, TagList>,
                               check: CheckTag -> Verdict, results: seq<CheckTag>, app: string, list: TagList)
    requires Lawful(sv) && Delivers(POOL, Jobs(repositories, before), results)
    requires NewestFirst(sv, Accepted(results, check, app), list.tags)
    requires list.name == if Accepted(results, check, app) == [] then "" else Lookup(before, app).name
    ensures NewestFirst(sv, Accepted(Jobs(repositories, before), check, app), list.tags)
    ensures TiesHarmless(sv, Accepted(Jobs(repositories, before), check, app)) ==>
      list == SequentialTags(sv, repositories, before, check, app)
    ensures NamedAsBefore(before, app, list)
  {
    AcceptedIsListed(repositories, before, check, app);
    var accepted := Accepted(Jobs(repositories, before), check, app);
    DeliveredOnce(POOL, Jobs(repositories, before), results);
    FlatMapPermuted(Keep(check, app), results, Jobs(repositories, before));
    SameMembers(Accepted(results, check, app), accepted);
    NewestFirstPermuted(sv, Accepted(results, check, app), accepted, list.tags);
    SequentialIsNewestFirst(sv, repositories, before, check, app);
    OneListingIffTiesHarmless(sv, accepted);
  }

  lemma AcceptedParse<V>(sv: Semver<V>, repositories: seq<string>, before: map<string, TagList>,
                         check: CheckTag -> Verdict, results: seq<CheckTag>, app: string)
    requires Delivers(POOL, Jobs(repositories, before), results)
    ensures AllParse(sv, Accepted(results, check, app))
       <==> AllParse(sv, Accepted(Jobs(repositories, before), check, app))
  {
    DeliveredOnce(POOL, Jobs(repositories, before), results);
    FlatMapPermuted(Keep(check, app), results, Jobs(repositories, before));
    SameMembers(Accepted(results, check, app), Accepted(Jobs(repositories, before), check, app));
  }

  // ----- Pulling the charts -----

  datatype Version = Version(version: string, digest: string)

  /** What one pull yields: the chart it belongs to, the chart-level metadata as of this tag, one version. */
  datatype Pulled = Pulled(id: string, metadata: string, version: Version)

  datatype Chart = Chart(id: string, metadata: string, versions: seq<Version>)

  /** The tags to pull; None when the shallow pass takes element 0 of an empty list and panics. */
  function PullJobs(repositories: seq<string>, tags: map<string, TagList>, latestOnly: bool): Option<seq<CheckTag>> {
    if !latestOnly then Some(Jobs(repositories, tags))
    else if exists app :: app in repositories && Lookup(tags, app).tags == [] then None
    else Some(FlatMap(app => AppJobs(app, Lookup(tags, app).tags[..Min(1, |Lookup(tags, app).tags|)]), repositories))
  }

  function VersionsOf(pull: CheckTag -> Option<Pulled>, id: string): CheckTag -> seq<Version> {
    (job: CheckTag) => match pull(job) case Some(p) => if p.id == id then [p.version] else [] case None => []
  }

  function MetadataOf(pull: CheckTag -> Option<Pulled>, id: string): CheckTag -> seq<string> {
    (job: CheckTag) => match pull(job) case Some(p) => if p.id == id then [p.metadata] else [] case None => []
  }

  ghost predicate Yields(pull: CheckTag -> Option<Pulled>, job: CheckTag, id: string, v: Version) {
    pull(job).Some? && pull(job).value.id == id && pull(job).value.version == v
  }

  /** Which entries of the repositories have a first tag that yields the version. */
  ghost function FirstTagsYielding(repositories: seq<string>, tags: map<string, TagList>,
                                   pull: CheckTag -> Option<Pulled>,
                                   id: string, v: Version): set<int>
  {
    set i | 0 <= i < |repositories| && repositories[i] in tags && tags[repositories[i]].tags != []
            && Yields(pull, CheckTag(repositories[i], tags[repositories[i]].tags[0]), id, v)
  }

  /** Which entries of the repositories have which tags that yield the version. */
  ghost function TagsYielding(repositories: seq<string>, tags: map<string, TagList>, pull: CheckTag -> Option<Pulled>,
                              id: string, v: Version): set<(int, int)>
  {
    set i, k | 0 <= i < |repositories| && repositories[i] in tags && 0 <= k < |tags[repositories[i]].tags|
               && Yields(pull, CheckTag(repositories[i], tags[repositories[i]].tags[k]), id, v) :: (i, k)
  }

  /** In a shallow pass the first tag of each list is pulled, once for every time the repository is listed. */
  lemma LatestArePulled(repositories: seq<string>, tags: map<string, TagList>, pull: CheckTag -> Option<Pulled>,
                        id: string, v: Version)
    requires PullJobs(repositories, tags, true).Some?
    ensures multiset(FlatMap(VersionsOf(pull, id), PullJobs(repositories, tags, true).value))[v]
            == |FirstTagsYielding(repositories, tags, pull, id, v)|
  {
    var jobs := PullJobs(repositories, tags, true).value;
    var hit := (u: CheckTag) => Yields(pull, u, id, v);
    LatestJobs(repositories, tags);
    CountPositions(VersionsOf(pull, id), jobs, v, hit);
    FirstPositions(repositories, tags, pull, id, v, jobs, hit);
  }

  lemma LatestJobs(repositories: seq<string>, tags: map<string, TagList>)
    requires PullJobs(repositories, tags, true).Some?
    ensures var jobs := PullJobs(repositories, tags, true).value;
            && |jobs| == |repositories|
            && forall i :: 0 <= i < |repositories| ==>
                 && repositories[i] in tags && tags[repositories[i]].tags != []
                 && jobs[i] == CheckTag(repositories[i], tags[repositories[i]].tags[0])
  {
    var g := (app: string) => AppJobs(app, Lookup(tags, app).tags[..Min(1, |Lookup(tags, app).tags|)]);
    FlatMapSame((app: string) => AppJobs(app, Lookup(tags, app).tags[..Min(1, |Lookup(tags, app).tags|)]), g,
      repositories);
    OneEach(g, repositories);
    forall i | 0 <= i < |repositories| ensures repositories[i] in tags && tags[repositories[i]].tags != [] {
      assert repositories[i] in repositories;
    }
  }

  lemma {:induction false} OneEach<T, S>(g: T -> seq<S>, s: seq<T>)
    requires forall x :: x in s ==> |g(x)| == 1
    ensures |FlatMap(g, s)| == |s| && forall i :: 0 <= i < |s| ==> FlatMap(g, s)[i] == g(s[i])[0]
  {
    if s != [] {
      OneEach(g, s[1..]);
      assert forall i :: 0 < i < |s| ==> s[i] == s[1..][i - 1];
    }
  }

  lemma FirstPositions(repositories: seq<string>, tags: map<string, TagList>, pull: CheckTag -> Option<Pulled>,
                       id: string, v: Version, jobs: seq<CheckTag>, hit: CheckTag -> bool)
    requires |jobs| == |repositories|
    requires forall i :: 0 <= i < |repositories| ==>
      && repositories[i] in tags && tags[repositories[i]].tags != []
      && jobs[i] == CheckTag(repositories[i], tags[repositories[i]].tags[0])
    requires forall u :: hit(u) <==> Yields(pull, u, id, v)
    ensures Positions(jobs, hit) == FirstTagsYielding(repositories, tags, pull, id, v)
  {
  }

  /** In a full pass every tag of each list is pulled, as often as it is there for every time the repository is
      listed. */
  lemma AllArePulled(repositories: seq<string>, tags: map<string, TagList>, pull: CheckTag -> Option<Pulled>,
                     id: string, v: Version)
    requires PullJobs(repositories, tags, false).Some?
    ensures multiset(FlatMap(VersionsOf(pull, id), PullJobs(repositories, tags, false).value))[v]
            == |TagsYielding(repositories, tags, pull, id, v)|
  {
    var g := (app: string) => AppJobs(app, Lookup(tags, app).tags);
    var hit := (u: CheckTag) => Yields(pull, u, id, v);
    JobsAre(repositories, tags, g);
    CountPairs(g, VersionsOf(pull, id), repositories, v, hit);
    YieldingPairs(repositories, tags, pull, id, v, g, hit);
  }

  lemma YieldingPairs(repositories: seq<string>, tags: map<string, TagList>, pull: CheckTag -> Option<Pulled>,
                      id: string, v: Version, g: string -> seq<CheckTag>, hit: CheckTag -> bool)
    requires forall app :: g(app) == AppJobs(app, Lookup(tags, app).tags)
    requires forall u :: hit(u) <==> Yields(pull, u, id, v)
    ensures PairPositions(repositories, g, hit) == TagsYielding(repositories, tags, pull, id, v)
  {
  }

  // ----- The registry object -----

  /** The chart kept under each id after the results so far: all its versions in order of arrival, and the
      metadata that arrived first. */
  ghost predicate Merged(results: seq<CheckTag>, pull: CheckTag -> Option<Pulled>, charts: map<string, Chart>) {
    forall id ::
      var versions, metadata := FlatMap(VersionsOf(pull, id), results), FlatMap(MetadataOf(pull, id), results);
      && |metadata| == |versions|
      && (id in charts <==> versions != [])
      && (id in charts ==> charts[id] == Chart(id, metadata[0], versions))
  }

  function AddPulled(charts: map<string, Chart>, p: Pulled): map<string, Chart> {
    if p.id in charts then charts[p.id := charts[p.id].(versions := charts[p.id].versions + [p.version])]
    else charts[p.id := Chart(p.id, p.metadata, [p.version])]
  }

  lemma MergeOne(results: seq<CheckTag>, pull: CheckTag -> Option<Pulled>, charts: map<string, Chart>, last: CheckTag)
    requires Merged(results, pull, charts)
    ensures Merged(results + [last], pull, if pull(last).Some? then AddPulled(charts, pull(last).value) else charts)
  {
    var after := if pull(last).Some? then AddPulled(charts, pull(last).value) else charts;
    forall id
      ensures var versions, metadata :=
                FlatMap(VersionsOf(pull, id), results + [last]), FlatMap(MetadataOf(pull, id), results + [last]);
              && |metadata| == |versions|
              && (id in after <==> versions != [])
              && (id in after ==> after[id] == Chart(id, metadata[0], versions))
    {
      FlatMapSnoc(VersionsOf(pull, id), results, last);
      FlatMapSnoc(MetadataOf(pull, id), results, last);
    }
  }

  /** The tags after the results: the apps with an accepted tag, each with its old name and its accepted tags. */
  ghost predicate Received(results: seq<CheckTag>, check: CheckTag -> Verdict, before: map<string, TagList>,
                           tags: map<string, TagList>)
  {
    forall app ::
      && (app in tags <==> Accepted(results, check, app) != [])
      && (app in tags ==> tags[app] == TagList(Lookup(before, app).name, Accepted(results, check, app)))
  }

  lemma ReceiveOne(results: seq<CheckTag>, check: CheckTag -> Verdict, before: map<string, TagList>,
                   tags: map<string, TagList>, res: CheckTag)
    requires Received(results, check, before, tags)
    ensures Received(results + [res], check, before,
                     if check(res).HelmChart? then
                       tags[res.app := TagList(Lookup(before, res.app).name, Lookup(tags, res.app).tags + [res.tag])]
                     else tags)
  {
    forall app
      ensures Accepted(results + [res], check, app) == Accepted(results, check, app) + Keep(check, app)(res)
    {
      FlatMapSnoc(Keep(check, app), results, res);
    }
  }

  lemma ReceivedTags(results: seq<CheckTag>, check: CheckTag -> Verdict, before: map<string, TagList>,
                     tags: map<string, TagList>, app: string)
    requires Received(results, check, before, tags)
    ensures Lookup(tags, app).tags == Accepted(results, check, app)
    ensures Lookup(tags, app).name == if Accepted(results, check, app) == [] then "" else Lookup(before, app).name
  {
  }

  lemma UnparsableAgree<V>(sv: Semver<V>, repositories: seq<string>, before: map<string, TagList>,
                           check: CheckTag -> Verdict, results: seq<CheckTag>, tags: map<string, TagList>)
    requires Delivers(POOL, Jobs(repositories, before), results) && Received(results, check, before, tags)
    ensures (exists app :: app in repositories && !AllParse(sv, Lookup(tags, app).tags))
       <==> (exists app :: app in repositories && !AllParse(sv, Accepted(Jobs(repositories, before), check, app)))
  {
    forall app
      ensures AllParse(sv, Lookup(tags, app).tags)
         <==> AllParse(sv, Accepted(Jobs(repositories, before), check, app))
    {
      ReceivedTags(results, check, before, tags, app);
      AcceptedParse(sv, repositories, before, check, results, app);
    }
  }

  /** A chart holds what was pulled for it, in order of arrival, under the metadata that arrived first. */
  lemma MergedInOrder(results: seq<CheckTag>, pull: CheckTag -> Option<Pulled>, charts: map<string, Chart>, id: string)
      returns (ks: seq<nat>)
    requires Merged(results, pull, charts) && id in charts
    ensures forall i, j :: 0 <= i < j < |ks| ==> ks[i] < ks[j]
    ensures forall k: nat :: k in ks <==> k < |results| && pull(results[k]).Some? && pull(results[k]).value.id == id
    ensures |ks| == |charts[id].versions| > 0 && charts[id].id == id
    ensures forall i :: 0 <= i < |ks| ==>
      ks[i] < |results| && pull(results[ks[i]]).Some? && pull(results[ks[i]]).value.version == charts[id].versions[i]
    ensures charts[id].metadata == pull(results[ks[0]]).value.metadata
  {
    ks := PickedInOrder(VersionsOf(pull, id), results);
    var ms := PickedInOrder(MetadataOf(pull, id), results);
    forall k: nat ensures k in ks <==> k in ms {
    }
    SameFirst(ks, ms);
  }

  lemma SameFirst(ks: seq<nat>, ms: seq<nat>)
    requires ks != [] && ms != [] && forall k: nat :: k in ks <==> k in ms
    requires forall i, j :: 0 <= i < j < |ks| ==> ks[i] < ks[j]
    requires forall i, j :: 0 <= i < j < |ms| ==> ms[i] < ms[j]
    ensures ks[0] == ms[0]
  {
    assert ks[0] in ms && ms[0] in ks;
  }

  /** Some schedule merges the pulls of these jobs into these charts. */
  ghost predicate CanMergeTo(jobs: seq<CheckTag>, pull: CheckTag -> Option<Pulled>, charts: map<string, Chart>) {
    exists results :: Delivers(POOL, jobs, results) && Merged(results, pull, charts)
  }

  lemma MergedVersions(jobs: seq<CheckTag>, pull: CheckTag -> Option<Pulled>, id: string, charts: map<string, Chart>)
    requires CanMergeTo(jobs, pull, charts)
    ensures id in charts <==> FlatMap(VersionsOf(pull, id), jobs) != []
    ensures id in charts ==> multiset(charts[id].versions) == multiset(FlatMap(VersionsOf(pull, id), jobs))
  {
    var results :| Delivers(POOL, jobs, results) && Merged(results, pull, charts);
    DeliveredOnce(POOL, jobs, results);
    FlatMapPermuted(VersionsOf(pull, id), results, jobs);
    SameMembers(FlatMap(VersionsOf(pull, id), results), FlatMap(VersionsOf(pull, id), jobs));
  }

  class OCIRegistry {
    var repositories: seq<string>
    var tags: map<string, TagList>

    constructor (repositories: seq<string>, tags: map<string, TagList>)
      ensures this.repositories == repositories && this.tags == tags
    {
      this.repositories := repositories;
      this.tags := tags;
    }

    /** Rebuilds `tags` from the delivered results. */
    method ReceiveTags(results: seq<CheckTag>, check: CheckTag -> Verdict)
      modifies this`tags
      ensures Received(results, check, old(tags), tags)
    {
      var unfiltered := tags;
      tags := map[];
      for i := 0 to |results|
        invariant Received(results[..i], check, unfiltered, tags)
      {
        var res := results[i];
        assert results[..i + 1] == results[..i] + [res];
        ReceiveOne(results[..i], check, unfiltered, tags, res);
        if check(res).HelmChart? {
          tags := tags[res.app := TagList(Lookup(unfiltered, res.app).name, Lookup(tags, res.app).tags + [res.tag])];
        }
      }
      assert results[..|results|] == results;
    }

    /** Orders the tags of every listed repository.  An unparsable tag leaves a nil version, and comparing or
        printing it panics. */
    method OrderTags<V(!new)>(sv: Semver<V>) returns (panicked: bool)
      requires Lawful(sv)
      modifies this`tags
      ensures panicked <==> exists app :: app in repositories && !AllParse(sv, Lookup(old(tags), app).tags)
      ensures !panicked ==> OrderedSoFar(sv, old(tags), tags, repositories)
    {
      for i := 0 to |repositories|
        invariant OrderedSoFar(sv, old(tags), tags, repositories[..i])
        invariant forall app :: app in repositories[..i] ==> AllParse(sv, Lookup(old(tags), app).tags)
      {
        var app := repositories[i];
        assert repositories[..i + 1] == repositories[..i] + [app];
        OrderOne(sv, old(tags), tags, repositories[..i], app);
        if !AllParse(sv, Lookup(tags, app).tags) {
          return true;
        }
        tags := tags[app := Reordered(sv, Lookup(tags, app))];
      }
      assert repositories[..|repositories|] == repositories;
      return false;
    }

    /** For every schedule of the pool: the listed repositories end with their accepted tags in canonical
        form, newest first, and where ties are harmless with exactly what a sequential loop gives. */
    method FilterIndex<V(!new)>(sv: Semver<V>, results: seq<CheckTag>, check: CheckTag -> Verdict)
        returns (panicked: bool)
      requires Lawful(sv) && Delivers(POOL, Jobs(repositories, tags), results)
      modifies this`tags
      ensures panicked <==>
        exists app :: app in repositories && !AllParse(sv, Accepted(Jobs(repositories, old(tags)), check, app))
      ensures !panicked ==> forall app :: app in repositories ==>
        app in tags && NewestFirst(sv, Accepted(Jobs(repositories, old(tags)), check, app), tags[app].tags)
      ensures !panicked ==>
        forall app | app in repositories && TiesHarmless(sv, Accepted(Jobs(repositories, old(tags)), check, app)) ::
          tags[app] == SequentialTags(sv, repositories, old(tags), check, app)
      ensures !panicked ==> forall app | app in repositories :: NamedAsBefore(old(tags), app, tags[app])
    {
      ghost var before := tags;
      ReceiveTags(results, check);
      ghost var received := tags;
      UnparsableAgree(sv, repositories, before, check, results, received);
      panicked := OrderTags(sv);
      if !panicked {
        forall app | app in repositories
          ensures NewestFirst(sv, Accepted(Jobs(repositories, before), check, app), tags[app].tags)
          ensures TiesHarmless(sv, Accepted(Jobs(repositories, before), check, app)) ==>
                    tags[app] == SequentialTags(sv, repositories, before, check, app)
          ensures NamedAsBefore(before, app, tags[app])
        {
          ReceivedTags(results, check, before, received, app);
          FilteredRight(sv, repositories, before, check, results, app, tags[app]);
        }
      }
    }

    /** The receive loop of Charts: the first chart to arrive under an id stays, later ones add a version. */
    method ReceiveCharts(results: seq<CheckTag>, pull: CheckTag -> Option<Pulled>) returns (charts: map<string, Chart>)
      ensures Merged(results, pull, charts)
    {
      charts := map[];
      for i := 0 to |results|
        invariant Merged(results[..i], pull, charts)
      {
        assert results[..i + 1] == results[..i] + [results[i]];
        MergeOne(results[..i], pull, charts, results[i]);
        match pull(results[i])
        case Some(p) => charts := AddPulled(charts, p);
        case None =>
      }
      assert results[..|results|] == results;
    }

    /** For every schedule: one chart per id pulled, with every version pulled for it as often as a tag listed yields
        it: in a shallow pass only the first tag of each list counts.  Only the order of the versions is the
        schedule's. */
    method Charts(latestOnly: bool, results: seq<CheckTag>, pull: CheckTag -> Option<Pulled>)
        returns (charts: Option<map<string, Chart>>)
      requires forall jobs | PullJobs(repositories, tags, latestOnly) == Some(jobs) :: Delivers(POOL, jobs, results)
      ensures charts.None? <==>
        latestOnly && exists app :: app in repositories && (app !in tags || tags[app].tags == [])
      ensures charts.Some? ==> CanMergeTo(PullJobs(repositories, tags, latestOnly).value, pull, charts.value)
      ensures charts.Some? ==> forall id | id in charts.value ::
        charts.value[id].id == id && charts.value[id].versions != []
      ensures charts.Some? ==> forall id: string, v: Version ::
        (if id in charts.value then multiset(charts.value[id].versions)[v] else 0)
        == if latestOnly then |FirstTagsYielding(repositories, tags, pull, id, v)|
           else |TagsYielding(repositories, tags, pull, id, v)|
    {
      var jobs := PullJobs(repositories, tags, latestOnly);
      if jobs.None? {
        return None;
      }
      var merged := ReceiveCharts(results, pull);
      assert CanMergeTo(jobs.value, pull, merged);
      forall id: string, v: Version
        ensures (if id in merged then multiset(merged[id].versions)[v] else 0)
                == if latestOnly then |FirstTagsYielding(repositories, tags, pull, id, v)|
                   else |TagsYielding(repositories, tags, pull, id, v)|
      {
        MergedVersions(jobs.value, pull, id, merged);
        if latestOnly {
          LatestArePulled(repositories, tags, pull, id, v);
        } else {
          AllArePulled(repositories, tags, pull, id, v);
        }
      }
      return Some(merged);
    }
  }

  lemma {:induction false} MergedExists(results: seq<CheckTag>, pull: CheckTag -> Option<Pulled>)
      returns (charts: map<string, Chart>)
    ensures Merged(results, pull, charts)
  {
    if results == [] {
      charts := map[];
    } else {
      var init, last := results[..|results| - 1], results[|results| - 1];
      var before := MergedExists(init, pull);
      MergeOne(init, pull, before, last);
      assert init + [last] == results;
      charts := if pull(last).Some? then AddPulled(before, pull(last).value) else before;
    }
  }

  ghost predicate AllEqual<T>(s: seq<T>) {
    forall x, y :: x in s && y in s ==> x == y
  }

  lemma ConstantPermuted<T>(s: seq<T>, r: seq<T>)
    requires AllEqual(s) && multiset(s) == multiset(r)
    ensures s == r
  {
    SameMembers(s, r);
    forall i | 0 <= i < |s| ensures s[i] == r[i] {
      assert s[i] in s && r[i] in r;
    }
  }

  lemma {:induction false} RotatedFrom<T>(s: seq<T>, i: nat)
    requires i < |s| && s == s[1..] + [s[0]]
    ensures s[i] == s[0]
  {
    if i > 0 {
      RotatedFrom(s, i - 1);
      assert s[i - 1] == (s[1..] + [s[0]])[i - 1];
    }
  }

  lemma RotatedConstant<T>(s: seq<T>)
    requires s != [] && s == s[1..] + [s[0]]
    ensures AllEqual(s)
  {
    forall i | 0 <= i < |s| ensures s[i] == s[0] {
      RotatedFrom(s, i);
    }
  }

  lemma {:induction false} FirstHit<T, S>(f: T -> seq<S>, s: seq<T>) returns (k: nat)
    requires FlatMap(f, s) != []
    ensures k < |s| && f(s[k]) != [] && FlatMap(f, s[..k]) == []
  {
    if f(s[0]) != [] {
      k := 0;
    } else {
      var rest := FirstHit(f, s[1..]);
      k := rest + 1;
      assert s[..k][1..] == s[1..][..rest];
    }
  }

  /** Holding back the first element that yields something rotates what the sequence yields. */
  lemma HoldBackRotates<T, S>(f: T -> seq<S>, s: seq<T>) returns (k: nat)
    requires FlatMap(f, s) != [] && forall x :: x in s ==> |f(x)| <= 1
    ensures k < |s| && FlatMap(f, HeldBack(s, k)) == FlatMap(f, s)[1..] + [FlatMap(f, s)[0]]
  {
    k := FirstHit(f, s);
    FlatMapSplit(f, s, k);
    FlatMapConcat(f, s[..k], s[k + 1..]);
    FlatMapSnoc(f, s[..k] + s[k + 1..], s[k]);
    var rest := FlatMap(f, s[k + 1..]);
    assert |f(s[k])| == 1 && FlatMap(f, s) == f(s[k]) + rest;
    assert FlatMap(f, HeldBack(s, k)) == rest + f(s[k]);
  }

  /** Every schedule lists the chart's versions the same way. */
  ghost predicate Settled(jobs: seq<CheckTag>, pull: CheckTag -> Option<Pulled>, id: string) {
    forall a: map<string, Chart>, b: map<string, Chart> |
      CanMergeTo(jobs, pull, a) && CanMergeTo(jobs, pull, b) && id in a && id in b :: a[id].versions == b[id].versions
  }

  lemma StreamsAgree(jobs: seq<CheckTag>, pull: CheckTag -> Option<Pulled>, id: string, a: seq<CheckTag>,
                     b: seq<CheckTag>)
    requires Settled(jobs, pull, id) && FlatMap(VersionsOf(pull, id), jobs) != []
    requires Delivers(POOL, jobs, a) && Delivers(POOL, jobs, b)
    ensures FlatMap(VersionsOf(pull, id), a) == FlatMap(VersionsOf(pull, id), b)
  {
    var x := MergedExists(a, pull);
    var y := MergedExists(b, pull);
    assert CanMergeTo(jobs, pull, x) && CanMergeTo(jobs, pull, y);
    MergedVersions(jobs, pull, id, x);
    MergedVersions(jobs, pull, id, y);
  }

  lemma InOrder(jobs: seq<CheckTag>)
    requires jobs != []
    ensures Delivers(POOL, jobs, jobs)
  {
    AnyAnswerLast(POOL, jobs, |jobs| - 1);
    assert HeldBack(jobs, |jobs| - 1) == jobs;
  }

  lemma SettledRotates(jobs: seq<CheckTag>, pull: CheckTag -> Option<Pulled>, id: string)
    requires Settled(jobs, pull, id) && FlatMap(VersionsOf(pull, id), jobs) != []
    ensures AllEqual(FlatMap(VersionsOf(pull, id), jobs))
  {
    var f := VersionsOf(pull, id);
    var k := HoldBackRotates(f, jobs);
    InOrder(jobs);
    AnyAnswerLast(POOL, jobs, k);
    StreamsAgree(jobs, pull, id, jobs, HeldBack(jobs, k));
    RotatedConstant(FlatMap(f, jobs));
  }

  /** The order of a chart's versions, and so which of them counts as its latest, is the same in every schedule exactly
      when all versions pulled for it are equal. */
  lemma VersionsSettledIff(jobs: seq<CheckTag>, pull: CheckTag -> Option<Pulled>, id: string)
    ensures Settled(jobs, pull, id) <==> AllEqual(FlatMap(VersionsOf(pull, id), jobs))
  {
    var vs := FlatMap(VersionsOf(pull, id), jobs);
    if AllEqual(vs) {
      forall a: map<string, Chart>, b: map<string, Chart> |
        CanMergeTo(jobs, pull, a) && CanMergeTo(jobs, pull, b) && id in a && id in b
        ensures a[id].versions == b[id].versions
      {
        MergedVersions(jobs, pull, id, a);
        MergedVersions(jobs, pull, id, b);
        ConstantPermuted(vs, a[id].versions);
        ConstantPermuted(vs, b[id].versions);
      }
    }
    if Settled(jobs, pull, id) && vs != [] {
      SettledRotates(jobs, pull, id);
    }
  }
}
