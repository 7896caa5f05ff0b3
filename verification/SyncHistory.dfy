/** Sequences of runs of one repository's sync: what its rows are after any of them, and when a skipped run is right to
    skip. */
module SyncHistory {
  import opened Wrappers
  import opened Sequences
  import opened Catalogue
  import opened FileImport
  import opened SyncRun
  import JqRule

  /** A run of this repository's sync and the database it started on, or anything else that leaves the repository's
      repos row and chart rows alone. */
  datatype Event = Ran(src: Source, before: Db, outcome: Outcome) | Elsewhere

  ghost predicate EventDoes(repo: RepoKey, e: Event, t: Tables, r: Tables) {
    match e
    case Ran(src, before, outcome) => before.tables == t && RunDoes(repo, src, before, outcome, r)
    case Elsewhere =>
      && KeysHold(r) && Get(r.repos, repo) == Get(t.repos, repo)
      && forall k: ChartKey | k.repo == repo :: Get(r.charts, k) == Get(t.charts, k)
  }

  function Earlier(events: seq<Event>): (init: seq<Event>)
    requires events != []
    ensures |init| < |events|
  {
    events[..|events| - 1]
  }

  function Latest(events: seq<Event>): Event
    requires events != []
  {
    events[|events| - 1]
  }

  ghost predicate IsHistory(repo: RepoKey, t: Tables, events: seq<Event>, r: Tables)
    decreases |events|
  {
    if events == [] then r == t
    else exists m :: IsHistory(repo, t, Earlier(events), m) && EventDoes(repo, Latest(events), m, r)
  }

  function LastCompleted(events: seq<Event>): Option<Source> {
    if events == [] then None
    else
      var e := Latest(events);
      if e.Ran? && e.outcome == Completed then Some(e.src) else LastCompleted(Earlier(events))
  }

  /** Some run has failed since the last completed one. */
  predicate FailedSince(events: seq<Event>) {
    events != [] &&
    var e := Latest(events);
    if e.Ran? && e.outcome == Completed then false
    else (e.Ran? && e.outcome == Fatal) || FailedSince(Earlier(events))
  }

  /** Over every history the stored checksum is that of the last completed run, and as long as no run has failed
      since, the chart rows are that run's. */
  lemma {:induction false} StoredStateIsLastCompleted(repo: RepoKey, t: Tables, events: seq<Event>, r: Tables)
    requires KeysHold(t) && IsHistory(repo, t, events, r)
    ensures KeysHold(r)
    ensures match LastCompleted(events)
            case None => LastChecksum(r, repo) == LastChecksum(t, repo)
            case Some(src) =>
              && src.checksum == Some(LastChecksum(r, repo)) && Charts(src, false).Some?
              && (!FailedSince(events) ==> ChartsAre(r, repo, Charts(src, false).value))
    decreases |events|
  {
    if events != [] {
      var init, e := Earlier(events), Latest(events);
      var m :| IsHistory(repo, t, init, m) && EventDoes(repo, e, m, r);
      StoredStateIsLastCompleted(repo, t, init, m);
      if e.Elsewhere? && LastCompleted(init).Some? && !FailedSince(init) {
        SameCharts(repo, m, r, Charts(LastCompleted(init).value, false).value);
      }
    }
  }

  /** A run on these tables skips; a checksum that cannot be read is empty and skips nothing. */
  predicate Skips(repo: RepoKey, src: Source, t: Tables) {
    src.checksum.Some? && src.checksum.value != "" && src.checksum.value == LastChecksum(t, repo)
  }

  /** Two lists that leave the same chart rows. */
  ghost predicate SameRows(a: seq<Chart>, b: seq<Chart>) {
    Ids(a) == Ids(b) && forall id :: id in Ids(a) ==> a[LastIndex(a, id)] == b[LastIndex(b, id)]
  }

  lemma RowsAgree(t: Tables, repo: RepoKey, a: seq<Chart>, b: seq<Chart>)
    ensures SameRows(a, b) <==> forall k: ChartKey | k.repo == repo ::
      SyncedChart(t, repo, a, k) == SyncedChart(t, repo, b, k)
  {
    if forall k: ChartKey | k.repo == repo :: SyncedChart(t, repo, a, k) == SyncedChart(t, repo, b, k) {
      forall id ensures id in Ids(a) <==> id in Ids(b) {
        assert SyncedChart(t, repo, a, ChartKey(repo, id)) == SyncedChart(t, repo, b, ChartKey(repo, id));
      }
      forall id | id in Ids(a) ensures a[LastIndex(a, id)] == b[LastIndex(b, id)] {
        assert SyncedChart(t, repo, a, ChartKey(repo, id)) == SyncedChart(t, repo, b, ChartKey(repo, id));
      }
    }
  }

  /** After a history without a failure since its last completed run, a skipped run finds the chart rows a full
      Sync of its own list would produce exactly when its list and that run's leave the same rows. */
  lemma SkipIsSoundIffSameRows(repo: RepoKey, t: Tables, events: seq<Event>, r: Tables, src: Source)
    requires KeysHold(t) && IsHistory(repo, t, events, r) && !FailedSince(events)
    requires Skips(repo, src, r) && LastCompleted(events).Some? && Charts(src, false).Some?
    ensures Charts(LastCompleted(events).value, false).Some?
    ensures SyncTables(r, repo, Charts(src, false).value).charts == r.charts
       <==> SameRows(Charts(LastCompleted(events).value, false).value, Charts(src, false).value)
  {
    StoredStateIsLastCompleted(repo, t, events, r);
    SkipMatches(repo, r, Charts(LastCompleted(events).value, false).value, Charts(src, false).value);
  }

  lemma SkipMatches(repo: RepoKey, r: Tables, stored: seq<Chart>, wanted: seq<Chart>)
    requires KeysHold(r) && ChartsAre(r, repo, stored)
    ensures SyncTables(r, repo, wanted).charts == r.charts <==> SameRows(stored, wanted)
  {
    var synced := SyncTables(r, repo, wanted);
    RowsAgree(r, repo, stored, wanted);
    forall k: ChartKey ensures Get(synced.charts, k) == SyncedChart(r, repo, wanted, k) {
      SyncSetsChart(r, repo, wanted, k);
    }
    if SameRows(stored, wanted) {
      forall k: ChartKey ensures Get(synced.charts, k) == Get(r.charts, k) {
        if k.repo == repo {
          assert Get(r.charts, k) == SyncedChart(r, repo, stored, k);
        }
      }
      SameMap(synced.charts, r.charts);
    } else {
      var k: ChartKey :| k.repo == repo && SyncedChart(r, repo, stored, k) != SyncedChart(r, repo, wanted, k);
      assert Get(r.charts, k) == SyncedChart(r, repo, stored, k);
    }
  }

  // ----- Skipping and the filter rule -----

  /** What an index of this checksum lists. */
  ghost predicate ReadsIndex(src: Source, index: string -> Option<seq<Chart>>) {
    src.checksum.Some? ==> src.listed(false) == index(src.checksum.value)
  }

  /** All runs of the history read the same indexes with the same rule. */
  ghost predicate OneRule(events: seq<Event>, index: string -> Option<seq<Chart>>, rule: Option<JqRule.Spec>,
                          matches: (string, string) -> Option<bool>)
  {
    forall e :: e in events && e.Ran? ==> ReadsIndex(e.src, index) && e.src.rule == rule && e.src.matches == matches
  }

  lemma {:induction false} LastCompletedRan(events: seq<Event>)
    requires LastCompleted(events).Some?
    ensures exists e :: e in events && e.Ran? && e.src == LastCompleted(events).value
  {
    var last := Latest(events);
    if last.Ran? && last.outcome == Completed {
      assert last in events;
    } else {
      LastCompletedRan(Earlier(events));
      var e :| e in Earlier(events) && e.Ran? && e.src == LastCompleted(events).value;
      assert e in events;
    }
  }

  /** With one rule throughout, and lists determined by the checksum, every skip is sound: after a history without a
      failure since its last completed run, a skipped run finds the rows a full Sync would produce. */
  lemma SameRuleSkipIsSound(repo: RepoKey, t: Tables, events: seq<Event>, r: Tables, src: Source,
                            index: string -> Option<seq<Chart>>)
    requires KeysHold(t) && IsHistory(repo, t, events, r) && !FailedSince(events)
    requires Skips(repo, src, r) && LastCompleted(events).Some?
    requires OneRule(events, index, src.rule, src.matches) && ReadsIndex(src, index)
    ensures HasCharts(src, false) && SyncTables(r, repo, Charts(src, false).value).charts == r.charts
  {
    StoredStateIsLastCompleted(repo, t, events, r);
    LastCompletedRan(events);
    assert Charts(LastCompleted(events).value, false) == Charts(src, false);
    SkipMatches(repo, r, Charts(src, false).value, Charts(src, false).value);
  }

  ghost predicate DistinctIds(charts: seq<Chart>) {
    forall i, j :: 0 <= i < j < |charts| ==> charts[i].id != charts[j].id
  }

  /** The two rules agree on every chart of the list. */
  ghost predicate RulesAgree(a: Source, b: Source, listed: seq<Chart>) {
    forall c :: c in listed ==> (JqRule.KeptBy(a.matches, a.rule, c) <==> JqRule.KeptBy(b.matches, b.rule, c))
  }

  lemma SameIdSameChart(charts: seq<Chart>, c: Chart, d: Chart)
    requires DistinctIds(charts) && c in charts && d in charts && c.id == d.id
    ensures c == d
  {
    var i :| 0 <= i < |charts| && charts[i] == c;
    var j :| 0 <= j < |charts| && charts[j] == d;
  }

  lemma KeptIds(src: Source, listed: seq<Chart>, c: Chart)
    requires src.listed(false) == Some(listed) && Charts(src, false).Some? && DistinctIds(listed) && c in listed
    ensures c.id in Ids(Charts(src, false).value) <==> JqRule.KeptBy(src.matches, src.rule, c)
  {
    var kept := Charts(src, false).value;
    JqRule.FilteredOneByOne(src.matches, listed, src.rule);
    forall d ensures d in kept <==> d in listed && JqRule.KeptBy(src.matches, src.rule, d) {
      InFlatMap(JqRule.KeptCharts(src.matches, src.rule), listed, d);
    }
    if c.id in Ids(kept) {
      var d :| d in kept && d.id == c.id;
      SameIdSameChart(listed, c, d);
    }
  }

  /** Over one list with distinct ids two rules leave the same rows exactly when they agree on every chart. */
  lemma SameRowsIffRulesAgree(a: Source, b: Source, listed: seq<Chart>)
    requires a.listed(false) == Some(listed) && b.listed(false) == Some(listed) && DistinctIds(listed)
    requires Charts(a, false).Some? && Charts(b, false).Some?
    ensures SameRows(Charts(a, false).value, Charts(b, false).value) <==> RulesAgree(a, b, listed)
  {
    if RulesAgree(a, b, listed) {
      JqRule.FilteredOneByOne(a.matches, listed, a.rule);
      JqRule.FilteredOneByOne(b.matches, listed, b.rule);
      FlatMapSame(JqRule.KeptCharts(a.matches, a.rule), JqRule.KeptCharts(b.matches, b.rule), listed);
    }
    if SameRows(Charts(a, false).value, Charts(b, false).value) {
      forall c | c in listed
        ensures JqRule.KeptBy(a.matches, a.rule, c) <==> JqRule.KeptBy(b.matches, b.rule, c)
      {
        KeptIds(a, listed, c);
        KeptIds(b, listed, c);
      }
    }
  }

  /** The checksum does not cover the rule: after such a history a skipped run finds the rows a full Sync would produce
      exactly when its rule and that of the last completed run agree on every chart of the index. */
  lemma SkipIsSoundIffRulesAgree(repo: RepoKey, t: Tables, events: seq<Event>, r: Tables, src: Source,
                                 listed: seq<Chart>)
    requires KeysHold(t) && IsHistory(repo, t, events, r) && !FailedSince(events)
    requires Skips(repo, src, r) && LastCompleted(events).Some? && Charts(src, false).Some?
    requires src.listed(false) == Some(listed) && LastCompleted(events).value.listed(false) == Some(listed)
    requires DistinctIds(listed)
    ensures SyncTables(r, repo, Charts(src, false).value).charts == r.charts
       <==> RulesAgree(LastCompleted(events).value, src, listed)
  {
    SkipIsSoundIffSameRows(repo, t, events, r, src);
    SameRowsIffRulesAgree(LastCompleted(events).value, src, listed);
  }

  /** So a rule made from names that is turned from keeping them to excluding them, or back, goes unnoticed: over a
      non-empty index the skipped run leaves other rows than a full Sync would. */
  lemma TurnedRuleGoesUnnoticed(repo: RepoKey, t: Tables, events: seq<Event>, r: Tables, src: Source,
                                listed: seq<Chart>, names: string, exclude: bool)
    requires KeysHold(t) && IsHistory(repo, t, events, r) && !FailedSince(events)
    requires Skips(repo, src, r) && LastCompleted(events).Some?
    requires src.listed(false) == Some(listed) && LastCompleted(events).value.listed(false) == Some(listed)
    requires DistinctIds(listed) && listed != []
    requires LastCompleted(events).value.rule == Some(JqRule.ToSpec(JqRule.FilterRule(names, false, exclude)))
    requires src.rule == Some(JqRule.ToSpec(JqRule.FilterRule(names, false, !exclude)))
    ensures Charts(src, false).Some? && SyncTables(r, repo, Charts(src, false).value).charts != r.charts
  {
    var before, c := LastCompleted(events).value, listed[0];
    JqRule.NamesRuleKeeps(src.matches, listed, names, !exclude);
    JqRule.NamesRuleVerdict(before.matches, names, exclude, c);
    JqRule.NamesRuleVerdict(src.matches, names, !exclude, c);
    assert c in listed;
    SkipIsSoundIffRulesAgree(repo, t, events, r, src, listed);
  }

  // ----- Skipping after a failure -----

  /** What a failed pass has upserted. */
  function UpsertedBy(src: Source, latestOnly: bool, db: Db): seq<Chart> {
    match Charts(src, latestOnly)
    case None => []
    case Some(charts) => Upserted(charts, Streak(db.answers))
  }

  /** The list whose rows are there after a failed run that found those of `rows`: the charts it has upserted come last,
      and only a Sync that went through has removed any. */
  function LeftRows(repo: RepoKey, src: Source, db: Db, rows: seq<Chart>): seq<Chart> {
    if src.checksum.None? then rows
    else
      var last, next := ReadChecksum(db.tables, repo, db.answers), Db(db.tables, Later(db.answers, 1));
      var first := AfterPass(repo, src, true, next);
      if AfterPasses(repo, src, last, next).Some? then Charts(src, false).value
      else if last != "" then rows + UpsertedBy(src, false, next)
      else if first.None? then rows + UpsertedBy(src, true, next)
      else Charts(src, true).value + UpsertedBy(src, false, first.value)
  }

  lemma PartialRows(t: Tables, repo: RepoKey, rows: seq<Chart>, charts: seq<Chart>, statements: nat)
    requires KeysHold(t) && ChartsAre(t, repo, rows)
    ensures ChartsAre(PartialSync(t, repo, charts, statements), repo, rows + Upserted(charts, statements))
  {
    var r, done := PartialSync(t, repo, charts, statements), Upserted(charts, statements);
    if statements == 0 {
      assert rows + done == rows;
    } else {
      ImportedCharts(EnsureRepo(t, repo), repo, done);
      forall k: ChartKey | k.repo == repo ensures Get(r.charts, k) == SyncedChart(r, repo, rows + done, k) {
        assert Get(t.charts, k) == SyncedChart(t, repo, rows, k) && k == ChartKey(repo, k.id);
        LastOfBoth(rows, done, k.id);
      }
    }
  }

  lemma PassLeavesRows(repo: RepoKey, src: Source, latestOnly: bool, db: Db)
    requires KeysHold(db.tables) && AfterPass(repo, src, latestOnly, db).Some?
    ensures var r := AfterPass(repo, src, latestOnly, db).value.tables;
            KeysHold(r) && ChartsAre(r, repo, Charts(src, latestOnly).value)
  {
    var charts := Charts(src, latestOnly).value;
    var synced := Db(SyncTables(db.tables, repo, charts), Later(db.answers, |charts| + 2));
    SyncIsExact(db.tables, repo, charts);
    SyncedRows(db.tables, repo, charts);
    FetchedAllKeepsKeys(repo, src.fetch(latestOnly), synced, FileJobs(charts));
    SameCharts(repo, synced.tables, AfterPass(repo, src, latestOnly, db).value.tables, charts);
  }

  lemma FailedPassLeavesRows(repo: RepoKey, src: Source, latestOnly: bool, db: Db, rows: seq<Chart>)
    requires KeysHold(db.tables) && ChartsAre(db.tables, repo, rows)
    ensures ChartsAre(LeftByPass(repo, src, latestOnly, db), repo, rows + UpsertedBy(src, latestOnly, db))
  {
    match Charts(src, latestOnly)
    case None => assert rows + [] == rows;
    case Some(charts) => PartialRows(db.tables, repo, rows, charts, Streak(db.answers));
  }

  lemma FailedRunLeavesRows(repo: RepoKey, src: Source, db: Db, rows: seq<Chart>)
    requires KeysHold(db.tables) && ChartsAre(db.tables, repo, rows)
    ensures ChartsAre(LeftByRun(repo, src, db), repo, LeftRows(repo, src, db, rows))
  {
    if src.checksum.Some? {
      var last, next := ReadChecksum(db.tables, repo, db.answers), Db(db.tables, Later(db.answers, 1));
      var first := AfterPass(repo, src, true, next);
      if last != "" {
        FailedPassLeavesRows(repo, src, false, next, rows);
        if AfterPass(repo, src, false, next).Some? {
          PassLeavesRows(repo, src, false, next);
        }
      } else if first.None? {
        FailedPassLeavesRows(repo, src, true, next, rows);
      } else {
        PassLeavesRows(repo, src, true, next);
        FailedPassLeavesRows(repo, src, false, first.value, Charts(src, true).value);
        if AfterPass(repo, src, false, first.value).Some? {
          PassLeavesRows(repo, src, false, first.value);
        }
      }
    }
  }

  /** The list whose rows a history leaves that began with the rows of `start`, failures and all. */
  function RowsAfter(repo: RepoKey, start: seq<Chart>, events: seq<Event>): seq<Chart> {
    if events == [] then start
    else
      var rows, e := RowsAfter(repo, start, Earlier(events)), Latest(events);
      if e.Elsewhere? || e.outcome == Skipped then rows
      else if e.outcome == Fatal then LeftRows(repo, e.src, e.before, rows)
      else match Charts(e.src, false) case Some(charts) => charts case None => rows
  }

  /** Over every history, whatever has failed in it and where, the chart rows are those of this list. */
  lemma {:induction false} RowsOverEveryHistory(repo: RepoKey, t: Tables, start: seq<Chart>, events: seq<Event>,
                                                r: Tables)
    requires KeysHold(t) && ChartsAre(t, repo, start) && IsHistory(repo, t, events, r)
    ensures KeysHold(r) && ChartsAre(r, repo, RowsAfter(repo, start, events))
    decreases |events|
  {
    if events != [] {
      var init, e := Earlier(events), Latest(events);
      var m :| IsHistory(repo, t, init, m) && EventDoes(repo, e, m, r);
      RowsOverEveryHistory(repo, t, start, init, m);
      var rows := RowsAfter(repo, start, init);
      if e.Elsewhere? {
        SameCharts(repo, m, r, rows);
      } else if e.outcome == Fatal {
        FailedRunLeavesRows(repo, e.src, e.before, rows);
      }
    }
  }

  /** Over every history, failures included, a skipped run finds the chart rows a full Sync would produce exactly
      when the history's list and its own leave the same rows. */
  lemma SkipIsSoundIff(repo: RepoKey, t: Tables, start: seq<Chart>, events: seq<Event>, r: Tables, src: Source)
    requires KeysHold(t) && ChartsAre(t, repo, start) && IsHistory(repo, t, events, r)
    requires Skips(repo, src, r) && Charts(src, false).Some?
    ensures SyncTables(r, repo, Charts(src, false).value).charts == r.charts
       <==> SameRows(RowsAfter(repo, start, events), Charts(src, false).value)
  {
    RowsOverEveryHistory(repo, t, start, events, r);
    SkipMatches(repo, r, RowsAfter(repo, start, events), Charts(src, false).value);
  }

  /** The list's last word on each of its ids is the other list's as well. */
  ghost predicate LastWordsIn(done: seq<Chart>, stored: seq<Chart>) {
    forall i :: IsLastListed(done, i) ==> done[i].id in Ids(stored) && stored[LastIndex(stored, done[i].id)] == done[i]
  }

  lemma UpsertsShowIff(stored: seq<Chart>, done: seq<Chart>)
    ensures SameRows(stored + done, stored) <==> LastWordsIn(done, stored)
  {
    forall id
      ensures id in Ids(stored + done) <==> id in Ids(stored) || id in Ids(done)
      ensures id in Ids(done) ==> (stored + done)[LastIndex(stored + done, id)] == done[LastIndex(done, id)]
      ensures id in Ids(stored) && id !in Ids(done) ==>
                (stored + done)[LastIndex(stored + done, id)] == stored[LastIndex(stored, id)]
    {
      LastOfBoth(stored, done, id);
    }
    if SameRows(stored + done, stored) {
      forall i | IsLastListed(done, i)
        ensures done[i].id in Ids(stored) && stored[LastIndex(stored, done[i].id)] == done[i]
      {
        LastIndexUnique(done, i);
      }
    }
    if LastWordsIn(done, stored) {
      forall id | id in Ids(done)
        ensures id in Ids(stored) && stored[LastIndex(stored, id)] == done[LastIndex(done, id)]
      {
        assert IsLastListed(done, LastIndex(done, id));
      }
    }
  }

  /** A Sync that fails is hidden from a return to the list before it exactly when every chart it has upserted is, in
      its last word, one of that list's. */
  lemma FailedSyncHiddenIff(t: Tables, repo: RepoKey, stored: seq<Chart>, other: seq<Chart>, statements: nat)
    requires KeysHold(t) && ChartsAre(t, repo, stored)
    ensures var left := PartialSync(t, repo, other, statements);
            SyncTables(left, repo, stored).charts == left.charts <==> LastWordsIn(Upserted(other, statements), stored)
  {
    SyncErasesFailure(t, repo, other, statements, stored);
    PartialRows(t, repo, stored, other, statements);
    SkipMatches(repo, PartialSync(t, repo, other, statements), stored + Upserted(other, statements), stored);
    RowsSymmetric(stored + Upserted(other, statements), stored);
    UpsertsShowIff(stored, Upserted(other, statements));
  }

  lemma RowsSymmetric(a: seq<Chart>, b: seq<Chart>)
    ensures SameRows(a, b) <==> SameRows(b, a)
  {
  }

  /** When a run fails and the index then reverts to that of the last completed run, the next run skips.  It finds the
      rows a full Sync would produce exactly when: the failed run died writing the checksum and its list leaves the rows
      of the old one; or it died in its first pass and what it has upserted is, in the last word, the old list's; or it
      died in its second pass and the shallow list with what has been upserted since leaves the rows of the old one. */
  lemma SkipAfterFailureIff(repo: RepoKey, t: Tables, events: seq<Event>, m: Tables, failed: Source, before: Db,
                            r: Tables, src: Source)
    requires KeysHold(t) && IsHistory(repo, t, events, m) && !FailedSince(events) && LastCompleted(events).Some?
    requires EventDoes(repo, Ran(failed, before, Fatal), m, r)
    requires Skips(repo, src, r) && Charts(src, false) == Charts(LastCompleted(events).value, false)
    ensures Charts(src, false).Some?
    ensures var stored, next := Charts(src, false).value, Db(m, Later(before.answers, 1));
            var last := ReadChecksum(m, repo, before.answers);
            var first := AfterPass(repo, failed, true, next);
            SyncTables(r, repo, stored).charts == r.charts <==>
              if failed.checksum.None? then true
              else if AfterPasses(repo, failed, last, next).Some? then SameRows(Charts(failed, false).value, stored)
              else if last != "" || first.None? then LastWordsIn(UpsertedBy(failed, last == "", next), stored)
              else SameRows(Charts(failed, true).value + UpsertedBy(failed, false, first.value), stored)
  {
    StoredStateIsLastCompleted(repo, t, events, m);
    var stored, rows := Charts(src, false).value, LeftRows(repo, failed, before, Charts(src, false).value);
    FailedRunLeavesRows(repo, failed, before, stored);
    SkipMatches(repo, r, rows, stored);
    var next := Db(m, Later(before.answers, 1));
    UpsertsShowIff(stored, UpsertedBy(failed, ReadChecksum(m, repo, before.answers) == "", next));
  }

  lemma HalfSynced(t: Tables, repo: RepoKey, stored: seq<Chart>, c: Chart)
    requires KeysHold(t) && ChartsAre(t, repo, stored) && !LastWordsIn([c], stored)
    ensures var left := PartialSync(t, repo, [c], 2);
            && LastChecksum(left, repo) == LastChecksum(t, repo) && Get(left.charts, ChartKey(repo, c.id)) == Some(c)
            && SyncTables(left, repo, stored).charts != left.charts
  {
    assert Upserted([c], 2) == [c];
    FailedSyncHiddenIff(t, repo, stored, [c], 2);
    FailureKeepsOthers(t, repo, [c], 2);
    ImportedCharts(EnsureRepo(t, repo), repo, [c]);
    assert IsLastListed([c], 0);
  }

  lemma TwoGoThrough()
    ensures Streak([true, true, false]) == 2 && Streak([true]) == 1
  {
    assert [true, true, false][1..] == [true, false] && [true, false][1..] == [false];
  }

  /** Such a run: it dies between importing a changed chart and removing others, the old checksum stays over the new
      row, the index reverts, and the next run skips although a full Sync would change the rows. */
  method RevertAfterFailure(db: PostgresAssetManager, repo: RepoKey, src: Source, changed: Chart)
      returns (outcome: Outcome)
    requires db.Valid() && WellFormed(src) && Skips(repo, src, db.Now())
    requires Charts(src, false).Some? && ChartsAre(db.Now(), repo, Charts(src, false).value)
    requires !LastWordsIn([changed], Charts(src, false).value)
    modifies db
    ensures outcome == Skipped && Get(db.charts, ChartKey(repo, changed.id)) == Some(changed)
    ensures SyncTables(db.Now(), repo, Charts(src, false).value).charts != db.charts
  {
    TwoGoThrough();
    HalfSynced(db.Now(), repo, Charts(src, false).value, changed);
    db.answers := [true, true, false];
    var ok := db.Sync(repo, [changed]);
    db.answers := [true];
    outcome := Sync(db, repo, src);
  }
}
