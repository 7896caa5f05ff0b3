# Kubeapps: a Dafny model of the asset syncer, the catalogue and their clients

Kubeapps keeps a catalogue of Helm charts.  A syncer reads chart repositories through pools of goroutines and writes
three PostgreSQL tables; an API compiles catalogue queries to SQL and lists the charts page by page; a dashboard glues
the pages together, keeps filters in the URL, edits YAML values and watches resources.  This project models those parts
and proves what they are for: over every schedule, every run, every query, every document.

Check everything with `dafny verify dfyconfig.toml`.

## The syncer

* `WorkerPool` is the goroutine pool that `FilterIndex`, `Charts` and `filterAllowedNamespaces` share, as a transition
  system with any number of workers and any positive channel capacities.  Sends on and closes of closed channels are
  transitions that set `panicked`; they are proved unreachable, not excluded.  Schedules are step sequences; every one is
  of bounded length and every one that cannot go on has answered each job exactly once.
* `OciRegistry` and `Namespaces` take the stream a schedule delivers (`Delivers`) and refine a sequential loop.
* `Catalogue` holds the tables as maps, the foreign keys as the invariant `KeysHold`, one function per SQL statement and
  the manager class that runs them.  `answers` says how each of the coming statements goes, so every method is proved
  for failures at any of them, passing ones included.
* `FileImport` and `FilePool` are the two-phase import of `fetchFiles`: the first gives the sequential import, the second
  the concurrent one.  Every schedule is proved free of panics, in order and complete, and as long as a digest tells the
  files of an id it leaves the tables of a sequential import in some order.  `FileRaces` shows what is open beyond that.
* `SyncRun` is one run: when it skips, completes and fails, and the exact tables it leaves, whichever statements fail.
  `SyncHistory` takes any sequence of runs and says when a skipped one is right to skip, `ShallowPass` when the shallow
  pass of a first run is hidden by the full one.  `HelmIndex` lists the charts of an index for any iteration order of
  Go's map and any sort that leaves ties as it likes (`Sorting`).

## Reading the catalogue

* `WhereClause` compiles a query to a condition with numbered parameters; `Sql` gives conditions their three-valued
  meaning.  The generated condition has no negation, so a row is kept exactly when the plain predicate holds; a parameter
  that cannot be cast fails the query.
* `Paging` has the page query, the reducer that collects pages, and what happens when each request orders equal names
  anew.

## Trees and strings

* `YamlPath` is the lens of `schema.ts` over documents; `PullSecrets` the recursive manifest rewrite of the
  post-renderer; `ForbiddenActions` the permission report; `KubeReducer` the sockets and intervals behind the kube
  reducer, with the watch protocol that drives it and the URLs its references make; `FilterQuery` the catalogue filters
  in the URL, down to percent-encoded UTF-8 (`UriComponent`); `JqRule` the filter rules the dashboard prints and the
  syncer runs.

## Where the code falls short of its own description

Each of these is a lemma that gives the exact condition or a concrete case.

* Icons are said to be processed before files (`cmd/asset-syncer/utils.go:739-740`,
  `cmd/asset-syncer/postgresql_utils.go:54-55`).  They are only handed out first; they are also finished first exactly
  with one worker or no chart (`FileRaces.IconsFirstIff`).
* Tags of equal precedence leave the listing open (`OciRegistry.OneListingIffTiesHarmless`), and which version of an
  OCI chart comes first is up to the schedule unless all that are pulled are equal (`OciRegistry.VersionsSettledIff`).
  An unparsable tag, or a shallow pass over a repository without accepted tags, ends in a panic
  (`OCIRegistry.FilterIndex`, `OCIRegistry.Charts`).
* A client whose request rate is below one gets no namespaces and leaves a goroutine behind
  (`Namespaces.ZeroLimitLeaksProducer`).
* File ids collide (`FileImport.SameFilesId`), and then the order of the imports shows unless the jobs are of one chart
  with one digest and the same files (`FileImport.SharedIdOrderShowsIff`).  Two workers can even leave one job's chart
  with the other's files, which no order explains (`FileRaces.CollisionRaces`, `FileRaces.SomeOrderIff`).
* A failed fetch is not tried again while the index stays the same (`ShallowPass.FailedFetchSticksIff`).  A run that died
  before its last write can be hidden by an index that reverts (`SyncHistory.SkipAfterFailureIff`,
  `SyncHistory.FailedSyncHiddenIff`, with `SyncHistory.RevertAfterFailure` as a case); a changed filter rule is not
  noticed (`SyncHistory.TurnedRuleGoesUnnoticed`, `SyncHistory.SkipIsSoundIffRulesAgree`).  A Sync of an empty list fails.
* The shallow pass shows after a first run when it fetches files the full pass does not
  (`ShallowPass.ShallowPassIsRedundantIff`).
* The maintainers part of a catalogue search never matches (`WhereClause.MaintainersNeverMatch`); versions are spliced
  into a JSON literal without escaping (`WhereClause.SplicedReadsBackIff`), and a literal the server cannot read fails
  the query (`WhereClause.WhereClauseSelects`).  An index entry without versions ends in a panic
  (`HelmIndex.ChartsFromIndex`), and entries of one newest name that come out as different charts leave the list open
  (`HelmIndex.OneListIffAlikeNames`).
* Pages miss rows when a page boundary separates equal names (`Paging.PagesCoverIffNoTieAtBoundary`); charts with one id
  from two namespaces become one (`Paging.UniqByKeepsAllIff`).
* `setValue` joins missing components with dots, does not find escaped parents and takes the whole path for one key in an
  empty document (`YamlPath.SetThenGetValueIff`, `YamlPath.SetKeepsOthersIff`, `YamlPath.SetInEmptyDocumentIff`).
* The pull secrets depend on Go's map order when two servers come down to one host
  (`PullSecrets.OneRendererIffServersAgree`).
* A merged action forgets that its resource is cluster-wide (`ForbiddenActions.ClusterWideOnlyAlone`), and slashes in
  names can make keys coincide (`ForbiddenActions.ReduceKeepsDenialsIff`).
* A filter value with `__` or `_,` does not survive the URL (`FilterQuery.FiltersRoundTripIff`); a rule of more than ten
  names comes back from the cluster with its names in another order (`JqRule.OrderSurvivesUpToTen`).

## Model

| member | source | states |
|---|---|---|
| WorkerPool.StepKeeps | cmd/asset-syncer/utils.go:506-544 | from any reachable state every step keeps the pool sound and lowers one measure |
| WorkerPool.PoolIsSafe | cmd/asset-syncer/utils.go:503-544 | in every schedule no send or close hits a closed channel, every job is accounted for once, results close after all workers are done, and the schedule has bounded length |
| WorkerPool.AnsweredExactlyOnce | cmd/asset-syncer/utils.go:532-544 | when the receive loop ends the answers are the jobs as a multiset exactly if there is a worker or nothing to do |
| WorkerPool.NoDeadlock | cmd/asset-syncer/utils.go:511-530 | a state without an enabled step has no goroutine left, except a producer stuck for want of any worker |
| WorkerPool.EveryMaximalRunCompletes | cmd/asset-syncer/utils.go:576-621 | every schedule that cannot go on has ended the receive loop with every job answered once |
| WorkerPool.CanFinish | cmd/asset-syncer/utils.go:576-621 | from every reachable state some schedule completes |
| WorkerPool.AnyAnswerLast | cmd/asset-syncer/utils.go:340-345 | for any jobs and at least two workers, any one answer can be the last to arrive, the others coming in the order of the jobs |
| Namespaces.FilterAllowedNamespaces | pkg/kube/kube_handler.go:932-971 | for every schedule the result is the permitted namespaces as a multiset, or nothing for a limit of zero |
| Namespaces.PermittedCount | pkg/kube/kube_handler.go:945-968 | a namespace is permitted as often as it is listed if its review allows it, and not at all otherwise |
| Namespaces.ZeroLimitLeaksProducer | pkg/kube/kube_handler.go:936-958 | with no worker the producer stays blocked on its first send |
| OciRegistry.OneListingIffTiesHarmless | cmd/asset-syncer/utils.go:546-560 | the accepted tags settle the listing exactly when tags of equal precedence have the same canonical form |
| OciRegistry.AcceptedAreListed | cmd/asset-syncer/utils.go:518-544 | a tag is accepted as often as the lists of its repository have it, for every time the repository is listed, if the check found a Helm chart |
| OciRegistry.ListingMeans | cmd/asset-syncer/utils.go:546-560 | a listing has each accepted tag once per acceptance in canonical form, and of its first one no accepted tag is newer |
| OciRegistry.OCIRegistry.ReceiveTags | cmd/asset-syncer/utils.go:532-544 | the rebuilt map holds, per repository with any, the accepted tags in order of arrival |
| OciRegistry.OCIRegistry.OrderTags | cmd/asset-syncer/utils.go:546-565 | each listed repository's tags become canonical and newest first; a panic exactly for an unparsable tag |
| OciRegistry.OCIRegistry.FilterIndex | cmd/asset-syncer/utils.go:503-566 | for every schedule each listed repository ends with its accepted tags newest first, equal to the sequential loop where ties are harmless |
| OciRegistry.OCIRegistry.ReceiveCharts | cmd/asset-syncer/utils.go:607-621 | one chart per id with the metadata of the first arrival and the versions in order of arrival |
| OciRegistry.OCIRegistry.Charts | cmd/asset-syncer/utils.go:569-628 | for every schedule one chart per id pulled, holding each version as often as a tag yields it: in a shallow pass only the first tag of each list counts, in a full one every tag; a panic exactly for a shallow pass over an empty tag list |
| OciRegistry.LatestArePulled | cmd/asset-syncer/utils.go:594-598 | a shallow pass pulls the first tag of each list, once per entry of the repositories |
| OciRegistry.AllArePulled | cmd/asset-syncer/utils.go:599-603 | a full pass pulls every tag of each list as often as it is there, per entry of the repositories |
| OciRegistry.MergedInOrder | cmd/asset-syncer/utils.go:607-617 | the versions of a merged chart are those pulled for its id, in the order of arrival |
| OciRegistry.VersionsSettledIff | cmd/asset-syncer/utils.go:607-617 | for any jobs, every schedule lists a chart's versions the same way exactly when all versions pulled for it are equal |
| Catalogue.SyncIsExact | cmd/asset-syncer/postgresql_utils.go:56-126 | from any state that meets the keys, Sync leaves the repository exactly id to last listed chart, keeps other repositories, removes only files of removed charts and keeps the keys |
| Catalogue.SyncForgets | cmd/asset-syncer/postgresql_utils.go:56-126 | the outcome of Sync does not depend on the repository's earlier chart rows |
| Catalogue.SyncErasesFailure | cmd/asset-syncer/postgresql_utils.go:56-126 | whatever prefix of a failed Sync was written, the keys and the checksum hold and a later Sync gives what it would have given without it |
| Catalogue.DeleteIsExact | cmd/asset-syncer/postgresql_utils.go:128-134 | deleting a repository cascades to exactly its charts and files and keeps the keys |
| Catalogue.SetChecksumIsExact | cmd/asset-syncer/postgresql_utils.go:83-94 | storing a checksum sets it and the given date on the one repository row and leaves everything else |
| Catalogue.PartialSyncIsExact | cmd/asset-syncer/postgresql_utils.go:56-126 | a Sync that dies has the repository row, the charts upserted so far in their last words, and every other row and file as it was |
| Catalogue.InsertKeepsKeys | pkg/dbutils/postgresql_utils.go:199-210 | an insert that goes through keeps the foreign keys |
| Catalogue.PostgresAssetManager.Sync | cmd/asset-syncer/postgresql_utils.go:56-72 | completes exactly when every statement goes through and the list is not empty; otherwise leaves the prefix done so far |
| Catalogue.PostgresAssetManager.ImportAll | cmd/asset-syncer/postgresql_utils.go:96-113 | upserts in order, stopping at the first failing statement with the earlier charts in place |
| Catalogue.PostgresAssetManager.RemoveMissingCharts | cmd/asset-syncer/postgresql_utils.go:115-126 | removes the repository's charts that are not listed with their files; fails on an empty list |
| Catalogue.PostgresAssetManager.EnsureRepoExists | pkg/dbutils/postgresql_utils.go:229-251 | adds the repository without touching an existing one |
| Catalogue.PostgresAssetManager.GetLastChecksum | cmd/asset-syncer/postgresql_utils.go:74-81 | the stored checksum, or the empty string when there is none or the query fails |
| Catalogue.PostgresAssetManager.UpdateLastCheck | cmd/asset-syncer/postgresql_utils.go:83-94 | sets checksum and date in one statement and changes nothing else |
| Catalogue.PostgresAssetManager.Delete | cmd/asset-syncer/postgresql_utils.go:128-134 | one statement takes the repository away with its charts and files |
| Catalogue.PostgresAssetManager.GetFilesExist | cmd/asset-syncer/postgresql_utils.go:158-171 | true exactly if a row of this repository has the id and the digest and the query goes through |
| Catalogue.PostgresAssetManager.Insert | cmd/asset-syncer/postgresql_utils.go:173-187 | inserts or updates the one row; fails exactly when the chart is missing or the statement fails |
| Catalogue.PostgresAssetManager.InvalidateCache | pkg/dbutils/postgresql_utils.go:218-226 | leaves empty tables |
| FileImport.ImportSeesOwnRow | cmd/asset-syncer/utils.go:838-875 | what a job does to its row depends on that row and the charts present alone |
| FileImport.ImportAllIsExact | cmd/asset-syncer/utils.go:724-764 | for distinct file ids a sequential import gives every job its effect on its own row and changes nothing else |
| FileImport.ImportTwice | cmd/asset-syncer/utils.go:838-875 | importing a job again changes nothing |
| FileImport.JobPerVersion | cmd/asset-syncer/utils.go:743-757 | there is a job for exactly the versions of the listed charts |
| FileImport.NewestVersionsFirst | cmd/asset-syncer/utils.go:743-757 | the jobs of the newest versions come first, in the order of the charts, then those of all older versions |
| FileImport.NoForeignKeyError | cmd/asset-syncer/utils.go:838-875 | after Sync no insert of the pass can break the foreign key to charts |
| FileImport.EveryVersionHasItsFiles | cmd/asset-syncer/utils.go:838-875 | with file ids apart, after Sync a sequential import without fetch errors leaves every version its row with its digest and fetched content |
| FileImport.NewRowIsStored | cmd/asset-syncer/utils.go:838-875 | what is fetched for a version without a row is stored under `repo/chart-version` of the namespace, with its digest, for the chart `repo/chart` |
| FileImport.OldRowIsKeptOrReplaced | cmd/asset-syncer/utils.go:843-875 | a row with the digest of the version stays whatever would be fetched; otherwise what is fetched replaces digest and files |
| FileImport.HasDigestIff | cmd/asset-syncer/utils.go:838-875 | with file ids apart and whichever fetches fail, after Sync and the import a version's row carries its digest exactly if it was fetched or the row carried it before |
| FileImport.SkippingIsHarmless | cmd/asset-syncer/utils.go:843-847 | skipping on a matching digest never changes the outcome, for content determined by id and digest |
| FileImport.SameFilesId | cmd/asset-syncer/utils.go:840-841 | two jobs share a file id exactly when equal or when text moves over the dash from name to version |
| FileImport.ReposShareNoFilesId | cmd/asset-syncer/utils.go:840-841 | two repositories whose names hold no slash never share a file id |
| FileImport.SharedIdOrderShowsIff | cmd/asset-syncer/utils.go:840-874 | two fetched jobs that share a free id leave the same tables in either order exactly when they are of one chart with one digest and the same files |
| FilePool.StepFlows | cmd/asset-syncer/utils.go:724-780 | whatever the file ids, every step of the two-phase pool keeps it free of panics and in order, and lowers one measure |
| FilePool.StepKeeps | cmd/asset-syncer/utils.go:766-780 | with one worker, or where jobs of one id and digest bring the same files, every step keeps the tables those of a sequential import of the jobs done with |
| FilePool.PassIsOrdered | cmd/asset-syncer/utils.go:735-760 | in every schedule, whatever the file ids, nothing panics, no file job is taken before all icons are, and jobs are taken as a prefix of latest versions then older ones |
| FilePool.NoDeadlock | cmd/asset-syncer/utils.go:724-780 | a pass without an enabled step has returned from its wait |
| FilePool.CanFinish | cmd/asset-syncer/utils.go:724-780 | from every pool that flows some schedule completes |
| FilePool.EveryScheduleCompletes | cmd/asset-syncer/utils.go:724-780 | every schedule that cannot go on has returned with every icon and file job taken once and all workers gone, whatever the file ids |
| FilePool.EveryScheduleIsSomeOrder | cmd/asset-syncer/utils.go:724-780 | with one worker, or where jobs of one id and digest bring the same files, every such schedule has left the tables of a sequential import in some order, colliding ids or not |
| FilePool.EveryScheduleImportsAll | cmd/asset-syncer/utils.go:724-780 | with file ids apart those are the tables of the sequential import |
| FilePool.EveryScheduleStoresFiles | cmd/asset-syncer/utils.go:724-780 | with file ids apart, after Sync every schedule of a pass without fetch errors leaves every version its row with its digest and fetched content |
| FilePool.EveryScheduleHasDigestIff | cmd/asset-syncer/utils.go:724-780 | with file ids apart and whichever fetches fail, after Sync every schedule leaves a version's row with its digest exactly if it was fetched or its row had the digest before |
| FilePool.PassKeepsOtherFiles | cmd/asset-syncer/utils.go:724-780 | every schedule of a pass leaves every file row of every other repository as it was |
| FileRaces.IconsFirstIff | cmd/asset-syncer/utils.go:735-780 | in every reachable pool no worker holds a file job beside another's icon exactly with one worker or no chart |
| FileRaces.CollisionRaces | cmd/asset-syncer/utils.go:766-780 | two jobs alone on a free id, of one digest and different files, can be stored by two workers so that no sequential order leaves the tables |
| FileRaces.SomeOrderIff | cmd/asset-syncer/utils.go:766-780 | where ids collide in pairs on free rows, every schedule leaves the tables of some sequential order exactly with one worker or if jobs of one id and digest bring the same files |
| SyncRun.FetchAndImportFiles | cmd/asset-syncer/utils.go:838-875 | a file that is not found with its digest and can be fetched is stored, however the two statements go; given both it is the import of the job, else the tables stay or gain the fetched files |
| SyncRun.FetchFiles | cmd/asset-syncer/utils.go:724-764 | handles every job whichever statements fail; given two statements a job, leaves the tables of the sequential import |
| SyncRun.RunPass | cmd/asset-syncer/sync.go:114-125 | a pass succeeds exactly with charts to sync and the statements of Sync going through, leaves the list's chart rows and, given the statements, the files of all jobs; it never touches the checksum or other repositories' charts |
| SyncRun.RunPasses | cmd/asset-syncer/sync.go:106-126 | without a stored checksum a shallow pass comes first; given charts and statements both passes are done |
| SyncRun.Sync | cmd/asset-syncer/sync.go:89-134 | skips exactly on a checksum equal to the one read; completes exactly with charts to sync and the statements of Sync and of the checksum going through, files aside; given all statements, with the tables of its passes and the checksum; a failure leaves exactly what had been written and the checksum |
| SyncRun.ChartsAreThoseKept | cmd/asset-syncer/utils.go:184-216 | a pass works on those listed charts that the rule keeps, in order, and on all of them without a rule |
| SyncRun.RunKeepsOtherFiles | cmd/asset-syncer/sync.go:89-134 | however a run ends, fetches and failures at any statement included, every file row of every other repository is as it was |
| SyncHistory.StoredStateIsLastCompleted | cmd/asset-syncer/sync.go:89-134 | over every history the checksum is that of the last completed run and, without a later failure, so are the chart rows |
| SyncHistory.RowsOverEveryHistory | cmd/asset-syncer/sync.go:89-134 | over every history, whatever has failed and where, the chart rows are those of one list: the last Sync's, with what failed ones have upserted since at its end |
| SyncHistory.SkipIsSoundIff | cmd/asset-syncer/sync.go:95-101 | over every history a skipped run finds the rows a full Sync would leave exactly if that list and its own leave the same rows |
| SyncHistory.SameRuleSkipIsSound | cmd/asset-syncer/sync.go:95-101 | with one filter rule throughout and lists determined by the checksum, every skipped run after a completed one and no failure finds the rows a full Sync would leave |
| SyncHistory.SkipIsSoundIffRulesAgree | cmd/asset-syncer/sync.go:95-101 | over one index a skipped run finds those rows exactly if its rule and the last completed run's agree on every listed chart |
| SyncHistory.TurnedRuleGoesUnnoticed | cmd/asset-syncer/sync.go:95-101 | turning a rule of names from keeping to excluding is skipped over and leaves other rows, for every non-empty index |
| SyncHistory.FailedSyncHiddenIff | cmd/asset-syncer/postgresql_utils.go:56-126 | after a Sync that fails, the rows are what a full Sync of the list before it would leave exactly if each chart upserted is, in its last word, one of that list's |
| SyncHistory.SkipAfterFailureIff | cmd/asset-syncer/sync.go:95-132 | when a run fails and the index reverts to the last completed run's, the run that then skips is right exactly if what the failed one upserted, or the list it had synced, leaves the old list's rows |
| SyncHistory.RevertAfterFailure | cmd/asset-syncer/sync.go:95-120 | a run of a chart the list does not have that dies inside Sync, followed by a reverted index: the next run skips and a full Sync would change the rows |
| ShallowPass.FailedFetchSticksIff | cmd/asset-syncer/utils.go:774-779 | with file ids apart, a completed run stores the checksum whichever fetches fail, and a version's row has its digest afterwards exactly if it was fetched in the full pass, or in a shallow one as a newest version, or the row had it before |
| ShallowPass.ShallowPassIsRedundantIff | cmd/asset-syncer/sync.go:106-126 | a shallow pass before a full one leaves what the full one alone leaves exactly if for every newest version there is nothing to store, the first fetch fails, both fetches bring the same, or the row is another repository's |
| ShallowPass.CompletedIsOneFullPassIff | cmd/asset-syncer/sync.go:106-132 | a completed run leaves the tables of one full pass with the new checksum exactly if it is not the first or its shallow pass is hidden |
| HelmIndex.ChartsFromIndex | pkg/helm/index.go:59-82 | for any iteration order the charts sorted by id, one for each entry whose newest version is not deprecated, with the escaped name, the id `repo/name`, the details and all versions or the newest alone; a panic exactly for an entry without versions |
| HelmIndex.OneListIffAlikeNames | pkg/helm/index.go:65-81 | every iteration order and every sorting give one list exactly if entries listed under one newest name come out as one chart |
| HelmIndex.IndependentOfIterationOrder | pkg/helm/index.go:65-81 | two lists made from such an index are the same |
| HelmIndex.ShallowIsFullCut | pkg/helm/index.go:39-52 | the shallow list is the full one with each chart cut to its newest version |
| HelmIndex.FirstRunIsOneFullPassIff | cmd/asset-syncer/sync.go:106-126 | a first-time run on a Helm index leaves the tables of one full pass exactly if its shallow pass is hidden, for a filter that treats both lists alike |
| Sql.OrHolds | cmd/assetsvc/pkg/utils/postgresql_utils.go:234-269 | a disjunction is true, under three-valued logic, exactly when one part is |
| Sql.AndHolds | cmd/assetsvc/pkg/utils/postgresql_utils.go:270-272 | a conjunction is true, under three-valued logic, exactly when every part is |
| Sql.LikeFindsSubstring | cmd/assetsvc/pkg/utils/postgresql_utils.go:260-262 | a pattern between percent signs finds plain text anywhere |
| Sql.LikeOneByOne | cmd/assetsvc/pkg/utils/postgresql_utils.go:260-262 | without percent signs a pattern matches character by character, an underscore any one |
| WhereClause.AddRepoClauses | cmd/assetsvc/pkg/utils/postgresql_utils.go:234-246 | appends one test per non-empty repository with the next parameter numbers |
| WhereClause.AddCategoryClauses | cmd/assetsvc/pkg/utils/postgresql_utils.go:247-259 | appends one test per non-empty category with the next parameter numbers |
| WhereClause.GenerateWhereClause | cmd/assetsvc/pkg/utils/postgresql_utils.go:211-275 | computes the clauses and parameters whose meaning the lemmas below state |
| WhereClause.WhereClauseSelects | cmd/assetsvc/pkg/utils/postgresql_utils.go:211-275 | for every query and catalogue the result is an error exactly for a version literal the server cannot read, else the rows that meet every part of the query in order; the placeholders are exactly those of the parameters |
| WhereClause.WhereClauseMeansQuery | cmd/assetsvc/pkg/utils/postgresql_utils.go:211-275 | for plain versions there is no error and the rows are those of the namespace or the global one, the name, a version pair, any repository, any category and the search over the six texts |
| WhereClause.SplicedReadsBackIff | cmd/assetsvc/pkg/utils/postgresql_utils.go:229 | a version spliced into a JSON string is read back as itself exactly when it needs no escaping |
| WhereClause.SearchFindsSubstring | cmd/assetsvc/pkg/utils/postgresql_utils.go:260-262 | a search without wildcards finds its text anywhere in a field, whatever the case |
| WhereClause.MaintainersNeverMatch | cmd/assetsvc/pkg/utils/postgresql_utils.go:267 | on a chart's list of maintainers that test is unknown |
| Paging.GetPaginatedChartList | cmd/assetsvc/pkg/utils/postgresql_utils.go:61-89 | the page asked for, or all rows without a size, and the least number of pages that holds the count; an error exactly if a statement fails |
| Paging.PagesConcatenate | cmd/assetsvc/pkg/utils/postgresql_utils.go:67-87 | the pages up to the page count are the whole list and exactly the later ones are empty |
| Paging.UniqByKeepsFirst | dashboard/src/reducers/charts.ts:69 | what is kept is the first chart of each id |
| Paging.UniqByInOrder | dashboard/src/reducers/charts.ts:69 | what is kept stays in order |
| Paging.FetchingUntilAnswered | dashboard/src/reducers/charts.ts:61-102 | fetching is shown from a request until the next answer |
| Paging.UniqByKeepsAllIff | dashboard/src/reducers/charts.ts:69 | nothing is dropped exactly when ids are distinct |
| Paging.FedInOrder | dashboard/src/reducers/charts.ts:61-102 | after pages 1 to n the items are that part of the list without repeated ids, and fetching is finished exactly from the last page on |
| Paging.FedInAnyOrder | dashboard/src/reducers/charts.ts:63-71 | repeats and reorderings give the ids of the pages that arrived, each once |
| Paging.EveryPageIsEnough | dashboard/src/reducers/charts.ts:63-71 | once every page has arrived, in any order, no id is missing |
| Paging.PagesCoverIffNoTieAtBoundary | cmd/assetsvc/pkg/utils/postgresql_utils.go:73 | fetching every page shows every row, however ties fall on each request, exactly when no page boundary separates equal names |
| YamlPath.UnescapeEscape | dashboard/src/shared/schema.ts:88-91 | unescaping undoes the escapes of section 4 of RFC 6901 |
| YamlPath.EscapeEach | dashboard/src/shared/schema.ts:88-91 | the escapes write a tilde as ~0 and a slash as ~1 and change nothing else |
| YamlPath.ParsePathOfKeys | dashboard/src/shared/schema.ts:78-95 | any list of keys can be addressed by a path, with the first slash and, unless the first key is empty, without |
| YamlPath.GetDefinedPath | dashboard/src/shared/schema.ts:60-76 | the longest prefix whose every node is neither undefined nor null |
| YamlPath.ParsePathAndValue | dashboard/src/shared/schema.ts:97-118 | the keys and value handed to the document in the empty, the defined and the missing case |
| YamlPath.GetValueMeans | dashboard/src/shared/schema.ts:143-148 | what the keys lead to through mappings, and the default for null or nothing |
| YamlPath.Document.SetIn | dashboard/src/shared/schema.ts:124 | replaces the value at the keys in place, or throws and leaves the document |
| YamlPath.Document.DeleteIn | dashboard/src/shared/schema.ts:136 | removes the last key in place, or throws and leaves the document |
| YamlPath.SetValue | dashboard/src/shared/schema.ts:121-126 | ties the method to the document after a set, whose laws follow |
| YamlPath.DeleteValue | dashboard/src/shared/schema.ts:133-140 | ties the method to the document after a delete; an emptied mapping becomes an empty document |
| YamlPath.SetThenGetValueIff | dashboard/src/shared/schema.ts:97-148 | the value set is read at its path exactly when the components to be created have no dot and no escape |
| YamlPath.SetInEmptyDocumentIff | dashboard/src/shared/schema.ts:98-101 | in an empty document that holds exactly for a path without slash, dot and escape |
| YamlPath.SetKeepsOthersIff | dashboard/src/shared/schema.ts:97-126 | every path neither a prefix nor an extension reads as before exactly when what was written over held nothing beside the path |
| YamlPath.UnescapedParentsLoseNothing | dashboard/src/shared/schema.ts:109-117 | without escapes in the parents nothing can be written over |
| YamlPath.EscapedParentLosesKeys | dashboard/src/shared/schema.ts:110-117 | an existing parent that is written with an escape loses its other keys |
| YamlPath.ThrowsIff | dashboard/src/shared/schema.ts:97-140 | for every path, setting and deleting throw exactly when the unescaped keys before the last one handed to the document do not lead to a mapping |
| YamlPath.ThrowsIffBlocked | dashboard/src/shared/schema.ts:97-140 | without escapes in the parents that is exactly when a defined value that is no mapping, or a null last parent, is in the way |
| YamlPath.SecondSetWins | dashboard/src/shared/schema.ts:121-126 | setting twice is setting the second value |
| YamlPath.SetWhatWasRead | dashboard/src/shared/schema.ts:121-126 | setting what a path already holds changes nothing |
| YamlPath.DeleteThenRead | dashboard/src/shared/schema.ts:133-140 | a deleted path reads as undefined and unrelated paths as before |
| YamlPath.DeleteUndoesSet | dashboard/src/shared/schema.ts:121-140 | deleting a key just added gives the document back |
| PullSecrets.NewDockerSecretsPostRenderer | pkg/agent/docker_secrets_postrenderer.go:27-53 | fails exactly for a server that does not parse as a URL, https unless it says otherwise; else each host, and docker.io for index.docker.io, gets the secret of the last server in range order |
| PullSecrets.OneRendererIffServersAgree | pkg/agent/docker_secrets_postrenderer.go:34-51 | the renderer is independent of the map order exactly when servers of one host agree |
| PullSecrets.ReadExisting | pkg/agent/docker_secrets_postrenderer.go:152-164 | the names of the existing pull secrets in order; a panic exactly if they are not a list of mappings |
| PullSecrets.UpdatePodSpecWithPullSecrets | pkg/agent/docker_secrets_postrenderer.go:137-203 | a panic exactly for pull secrets that cannot be read, else the rendering of the pod spec |
| PullSecrets.GetMapForKeys | pkg/agent/docker_secrets_postrenderer.go:231-242 | the mapping reached through mappings only, if any |
| PullSecrets.ProcessResourceList | pkg/agent/docker_secrets_postrenderer.go:55-87 | ties the loop and its recursion to the processed list |
| PullSecrets.Run | pkg/agent/docker_secrets_postrenderer.go:91-128 | without secrets the input untouched; otherwise a parse error, a panic exactly for a pod spec whose pull secrets cannot be read, or each document rendered |
| PullSecrets.RenderedNames | pkg/agent/docker_secrets_postrenderer.go:150-202 | the names of the old pull secrets in order, then each secret of a container's image domain that was missing, once, in the order of the first container that needs it; everything else in the pod spec as it was |
| PullSecrets.RunMeans | pkg/agent/docker_secrets_postrenderer.go:55-242 | what each document becomes: nested items are rendered, the pod spec is where the kind has it, and all else is as it was |
| PullSecrets.UpdatesPodSpecs | pkg/agent/docker_secrets_postrenderer.go:55-87 | a panic exactly for a pod spec with unreadable secrets; otherwise the pod specs of the tree, each updated, in order |
| PullSecrets.ChangesOnlySecrets | pkg/agent/docker_secrets_postrenderer.go:55-87 | but for the pull secrets of recognised pod specs every document is as it was |
| PullSecrets.RunTwice | pkg/agent/docker_secrets_postrenderer.go:91-128 | rendering the rendered manifests changes nothing |
| ForbiddenActions.Resolve | pkg/auth/auth.go:129-140 | ties the loop to the lookup below |
| ForbiddenActions.ResolveMeans | pkg/auth/auth.go:129-140 | the first resource of the kind; an unregistered group is no error, a missing kind is |
| ForbiddenActions.Check | pkg/auth/auth.go:168-208 | ties the statements to the verdict below |
| ForbiddenActions.JudgeMeans | pkg/auth/auth.go:168-208 | skipped exactly for an unregistered group, denied exactly when the kind is found and the answer is no for the API version (no name for v1) and, if it has a slash, for the group before it; allowed exactly when the first answer that is not no is yes, broken when a lookup or an answer fails |
| ForbiddenActions.IsAllowed | pkg/auth/auth.go:165-211 | one action per denied item in order, cluster-wide and without namespace exactly for a resource that has none, or an error exactly if a check breaks |
| ForbiddenActions.GetResourcesToCheck | pkg/auth/auth.go:142-163 | what each object asks about, in its own namespace or else the release's, once and in the order of the first objects; all of it exactly when objects of one key ask alike |
| ForbiddenActions.AllResourcesCheckedIff | pkg/auth/auth.go:149-160 | no resource goes unchecked exactly when different ones have different keys |
| ForbiddenActions.AllAskedForIff | pkg/auth/auth.go:149-160 | no object goes unchecked exactly when objects with one key have one resource |
| ForbiddenActions.MergeVerbs | pkg/auth/auth.go:213-228 | the old verbs, then each new one once |
| ForbiddenActions.ReduceActionsByVerb | pkg/auth/auth.go:230-251 | lists one action per key, in any order |
| ForbiddenActions.ReduceKeepsDenialsIff | pkg/auth/auth.go:230-251 | merging keeps what is said exactly when actions of one key have one target |
| ForbiddenActions.ClusterWideOnlyAlone | pkg/auth/auth.go:234-245 | an action says cluster-wide exactly if it was never merged |
| ForbiddenActions.GetForbiddenActions | pkg/auth/auth.go:255-281 | an error exactly for an unreadable manifest or a check that fails for one of its objects; else, over the objects, one action per denied resource, or for an upgrade what is denied for create, update or delete, with one action per target and no verb twice |
| ForbiddenActions.UpgradeReportsDenied | pkg/auth/auth.go:255-281 | flattened, exactly the objects and verbs among the three for which every answer is no, in the object's own namespace if it has one, else in the release's |
| ForbiddenActions.PlainManifestTellsApart | pkg/auth/auth.go:155-157 | without slashes in namespaces, kinds and resource names the keys tell everything apart |
| KubeReducer.KubeStore.Dispatch | dashboard/src/reducers/kube.ts:190-258 | the new state and the handles opened, closed, started and cleared by each action |
| KubeReducer.EveryRunKeepsInvariant | dashboard/src/reducers/kube.ts:190-258 | over every run live sockets and intervals are those of the state, one per key, and nothing is closed or cleared twice |
| KubeReducer.CloseLeavesNeither | dashboard/src/reducers/kube.ts:211-233 | closing leaves neither socket nor interval for its reference and every other one alive |
| KubeReducer.RemovedTimerStops | dashboard/src/reducers/kube.ts:246-258 | removing a timer clears its interval and no other; without one nothing happens |
| KubeReducer.AddedTimerStarts | dashboard/src/reducers/kube.ts:234-245 | adding a timer starts a new interval for it; with one nothing happens |
| KubeReducer.OpenedWatchListens | dashboard/src/reducers/kube.ts:190-207 | opening a watch opens a new socket under its URL whose error listener asks for the timer of the resource; with one nothing happens |
| KubeReducer.ResourceURLSegments | dashboard/src/shared/Kube.ts:18-41 | the segments of a resource URL, for the core and other groups, with and without namespace and name |
| KubeReducer.WatchURLIs | dashboard/src/shared/Kube.ts:43-61 | the URL of the list with the watch flag and, for a name, its field selector |
| KubeReducer.SameWatchSameResource | dashboard/src/shared/Kube.ts:18-60 | without question marks in the names a list has, references that watch the same URL have the same resource URL, whatever the resource's name |
| KubeReducer.NothingLeftBehind | dashboard/src/actions/kube.tsx:117-148 | over every run of the watch protocol an interval belongs to an open watch, so unwatching all leaves nothing |
| KubeReducer.EventEffects | dashboard/src/actions/kube.tsx:117-148 | in every run watching leaves a socket, unwatching neither socket nor interval, a failing socket an interval, and a speaking one none |
| KubeReducer.QuestionMarkLeaks | dashboard/src/shared/Kube.ts:18-60 | with question marks there two references can share a watch URL, and unwatching through the other leaves an interval without a socket |
| UriComponent.DecodeEncoded | dashboard/src/components/Catalog/Catalog.tsx:84 | percent-decoding gives every encoded text back, whatever follows it |
| UriComponent.EncodedSafe | dashboard/src/components/Catalog/Catalog.tsx:84 | encoded text holds no separator of a query |
| UriComponent.KeptIff | dashboard/src/components/Catalog/Catalog.tsx:84 | exactly letters, digits and nine marks stay as they are |
| UriComponent.EncodedAscii | dashboard/src/components/Catalog/Catalog.tsx:84 | any other ASCII character becomes a percent sign and its two digits |
| UriComponent.EncodedSamples | dashboard/src/components/Catalog/Catalog.tsx:84 | the bytes of UTF-8 of a two-byte and a three-byte character |
| FilterQuery.RestoreHideIff | dashboard/src/components/Catalog/Catalog.tsx:84-126 | hiding commas is undone exactly for a value without two underscores or underscore and comma in a row |
| FilterQuery.InitialFilterState | dashboard/src/components/Catalog/Catalog.tsx:63-67 | an empty list for each of the five filters and no other |
| FilterQuery.ReadFilters | dashboard/src/components/Catalog/Catalog.tsx:122-132 | for any order of the keys the five filters and every parameter: what it lists between commas with its commas back, and nothing for a filter that is no parameter |
| FilterQuery.ParseWritten | dashboard/src/components/Catalog/Catalog.tsx:73-90 | the query written is parsed into the filters that have values |
| FilterQuery.QueryOfTwo | dashboard/src/components/Catalog/Catalog.tsx:73-90 | two filters with values of letters are written with their names, equals signs, commas and an ampersand |
| FilterQuery.QueryOfOne | dashboard/src/components/Catalog/Catalog.tsx:75-76 | a filter without values is not written, and without any there is no query |
| FilterQuery.FiltersRoundTripIff | dashboard/src/components/Catalog/Catalog.tsx:73-132 | the filters come back, over empty ones, exactly when every value is restorable |
| JqRule.ToFilterRule | dashboard/src/shared/jq.ts:3-24 | ties the loop to the rule the lemmas are about |
| JqRule.FilterRuleText | dashboard/src/shared/jq.ts:3-24 | the text of the program and the variables, for a pattern and for any number of names, excluding or not |
| JqRule.TrimMeans | dashboard/src/shared/jq.ts:12 | a name loses the white space at both ends, all of it and nothing else |
| JqRule.RuleRoundTrip | dashboard/src/shared/jq.ts:3-31 | reading a rule gives both flags back and writing what was read gives the same rule |
| JqRule.CompileJQ | cmd/asset-syncer/utils.go:150-169 | whatever the map order, the program sees the rule's binding of names to values |
| JqRule.FilterCharts | cmd/asset-syncer/utils.go:184-216 | all charts without a rule, an error for a rule that does not compile or run, else the charts satisfied in order |
| JqRule.UnboundVariableFails | cmd/asset-syncer/utils.go:160-166 | a program with a variable the rule does not bind fails whatever the charts are |
| JqRule.NamesRuleKeeps | cmd/asset-syncer/utils.go:184-216 | a rule made from names keeps exactly the charts of the trimmed names, or exactly the others, in order |
| JqRule.PatternRuleKeeps | cmd/asset-syncer/utils.go:184-216 | a rule made from a pattern keeps exactly the charts whose name matches, or exactly the others, and fails exactly if the pattern does |
| JqRule.ReorderedRuleKeeps | dashboard/src/shared/jq.ts:26-31 | with variables in another order the rule read and written again keeps the same charts |
| JqRule.OrderSurvivesUpToTen | cmd/apprepository-controller/pkg/apis/apprepository/v1alpha1/types.go:80-83 | the rule's variables, stored as a map and listed sorted by key, come back in their order exactly up to ten names |

## Left out

- HTTP, registry, Kubernetes, Helm and PostgreSQL calls, and decoding of YAML, JSON and archives: functions that may fail, or the table state.
- Icons: they are taken from the pool like any job, but the icon columns and updateIcon are not in the tables.
- Serial ids, creation of missing tables by InitTables and the statements of both, and the SQL text of the statements; conditions are syntax trees, and chart ids that hold a quote (spliced into `NOT IN`) are not modelled.
- The semver, jq, YAML and lodash libraries: an abstract order, a reader for the programs the dashboard prints, a tree with getIn, setIn and deleteIn, and lodash's `set` on plain dotted paths.
- YAML sequences, anchors and keys that are no strings: a sequence is a leaf of a document, so index components are not modelled.
- Printing and parsing of YAML text in setValue and of manifests in Run: documents are trees that survive it, except that the renderer's typed list becomes an ordinary one.
- In-place change of nested maps in the post-renderer and the YAML document: the nested values are replaced, not aliased.
- Database errors inside concurrent fetchFiles: in FilePool `Fetch` answering None stands for a failed fetch as well as a failed insert; SyncRun has the statements fail one by one.
- SyncRun.FetchFiles: runs one schedule; FilePool.EveryScheduleImportsAll shows the others leave the same tables where file ids do not collide.
- FileRaces.SomeOrderIff: for ids shared by three jobs or more, or taken before the pass, only the sufficient half FilePool.EveryScheduleIsSomeOrder is proved, because other jobs of the id can then hide the race.
- SyncRun.Sync: the statements of files are answered in the order of the sequential import.
- SyncRun.RunKeepsOtherFiles: for file rows that are where their repositories put them, and names of repositories without a slash, which Kubernetes allows in none.
- KubeReducer.NothingLeftBehind: for names of clusters, API versions, kinds and namespaces without a question mark, which Kubernetes allows in none of them but cluster names.
- OciRegistry.OCIRegistry.Charts: the order of versions and charts is the schedule's and only multisets are claimed; the filter applied at the end is the one of JqRule.
- WhereClause.WhereClauseMeansQuery: for versions that need escaping only WhereClauseSelects speaks, because what the literal then spells is up to the server.
- Overlapping runs of one repository: the code does not coordinate them.
- A negative worker limit, integer overflow of the offset and the floating point of the page count: counts are natural numbers.
- HelmRepo.Charts refusing an empty index, categories and the other columns of a chart: part of the opaque details of a chart.
- The checksum itself: a function of the index given as a value.
- jq errors: those of a single run of a jq program are not told apart, and a program outside the forms the dashboard prints does not parse.
- JavaScript strings with unpaired surrogates, which encodeURIComponent refuses, and nested query keys with brackets.
- Closing of sockets by the server and a WebSocket constructor that throws.
- The repository controller, the proxy, the fallback queries, authentication, routing and the React components.
