/** GenerateWhereClause: from a chart query to a WHERE condition with numbered parameters. */
module WhereClause {
  import opened Wrappers
  import opened Sequences
  import opened Text
  import opened Sql

  const ALL_NAMESPACES := "_all"

  datatype ChartQuery = ChartQuery(
    namespace: string, chartName: string, version: string, appVersion: string, searchQuery: string,
    repos: seq<string>, categories: seq<string>)

  const SEARCHED: seq<seq<string>> :=
    [["name"], ["description"], ["repo", "name"], ["keywords"], ["sources"], ["maintainers", "name"]]

  function VersionLiteral(version: string, appVersion: string): string {
    "[{\"version\":\"" + version + "\",\"app_version\":\"" + appVersion + "\"}]"
  }

  // ----- What the query asks for -----

  ghost predicate NamespaceMatches(cq: ChartQuery, kubeappsNamespace: string, row: Row) {
    cq.namespace != "_all" ==> row.repoNamespace == cq.namespace || row.repoNamespace == kubeappsNamespace
  }

  ghost predicate NameMatches(server: Server, cq: ChartQuery, row: Row) {
    cq.chartName != "" ==> FieldReads(server, row.info, "name", cq.chartName)
  }

  /** Some version of the chart has both the version and the app version asked for. */
  ghost predicate VersionMatches(cq: ChartQuery, row: Row) {
    cq.version != "" && cq.appVersion != "" ==>
      exists versions, v :: HasField(row.info, "chartVersions", JArray(versions)) && v in versions
        && HasField(v, "version", JString(cq.version)) && HasField(v, "app_version", JString(cq.appVersion))
  }

  ghost predicate RepoMatches(cq: ChartQuery, row: Row) {
    (exists r :: r in cq.repos && r != "") ==> row.repoName in cq.repos && row.repoName != ""
  }

  ghost predicate CategoryMatches(server: Server, cq: ChartQuery, row: Row) {
    (exists c :: c in cq.categories && c != "") ==>
      exists c :: c in cq.categories && c != "" && FieldReads(server, row.info, "category", c)
  }

  ghost predicate InnerReads(server: Server, j: Json, outer: string, key: string, text: string) {
    exists inner :: HasField(j, outer, inner) && FieldReads(server, inner, key, text)
  }

  /** The text is one of the six a search goes through. */
  ghost predicate IsSearched(server: Server, info: Json, text: string) {
    || FieldReads(server, info, "name", text)
    || FieldReads(server, info, "description", text)
    || InnerReads(server, info, "repo", "name", text)
    || FieldReads(server, info, "keywords", text)
    || FieldReads(server, info, "sources", text)
    || InnerReads(server, info, "maintainers", "name", text)
  }

  ghost predicate SearchMatches(server: Server, cq: ChartQuery, row: Row) {
    cq.searchQuery != "" ==>
      exists text :: IsSearched(server, row.info, text) && Ilike(server, text, "%" + cq.searchQuery + "%")
  }

  ghost predicate Matches(server: Server, cq: ChartQuery, kubeappsNamespace: string, row: Row) {
    && NamespaceMatches(cq, kubeappsNamespace, row)
    && NameMatches(server, cq, row)
    && VersionMatches(cq, row)
    && RepoMatches(cq, row)
    && CategoryMatches(server, cq, row)
    && SearchMatches(server, cq, row)
  }

  /** The version part as the server sees it: the chart's versions contain what the spliced literal spells. */
  ghost predicate VersionSelected(server: Server, cq: ChartQuery, row: Row) {
    cq.version != "" && cq.appVersion != "" ==>
      var wanted := server.jsonb("[{\"version\":\"" + cq.version + "\",\"app_version\":\"" + cq.appVersion + "\"}]");
      && wanted.Some?
      && exists versions :: HasField(row.info, "chartVersions", versions) && Contains(versions, wanted.value)
  }

  ghost predicate Selects(server: Server, cq: ChartQuery, kubeappsNamespace: string, row: Row) {
    && NamespaceMatches(cq, kubeappsNamespace, row)
    && NameMatches(server, cq, row)
    && VersionSelected(server, cq, row)
    && RepoMatches(cq, row)
    && CategoryMatches(server, cq, row)
    && SearchMatches(server, cq, row)
  }

  // ----- The generator, piece by piece -----

  /** The clauses one part of the query adds and the parameters it pushes. */
  datatype Piece = Piece(clauses: seq<Condition>, params: seq<string>)

  function NamespacePiece(cq: ChartQuery, kubeappsNamespace: string, base: nat): Piece {
    if cq.namespace == ALL_NAMESPACES then Piece([], [])
    else Piece([Or([NamespaceIs(base + 1), NamespaceIs(base + 2)])], [cq.namespace, kubeappsNamespace])
  }

  function NamePiece(cq: ChartQuery, base: nat): Piece {
    if cq.chartName == "" then Piece([], []) else Piece([TextIs(["name"], base + 1)], [cq.chartName])
  }

  function VersionPiece(cq: ChartQuery, base: nat): Piece {
    if cq.version == "" || cq.appVersion == "" then Piece([], [])
    else Piece([VersionsContain(base + 1)], [VersionLiteral(cq.version, cq.appVersion)])
  }

  function Tests(n: nat, test: nat -> Condition): seq<Condition> {
    seq(n, i requires 0 <= i < n => test(i))
  }

  function AnyOfPiece(values: seq<string>, test: nat -> Condition): Piece {
    var wanted := FlatMap(NonEmpty, values);
    Piece(if wanted == [] then [] else [Or(Tests(|wanted|, test))], wanted)
  }

  function RepoTest(base: nat): nat -> Condition {
    (i: nat) => RepoNameIs(base + i + 1)
  }

  function CategoryTest(base: nat): nat -> Condition {
    (i: nat) => TextIs(["category"], base + i + 1)
  }

  function SearchTests(base: nat): seq<Condition> {
    Map((path: seq<string>) => TextLike(path, base + 1), SEARCHED)
  }

  function SearchPiece(cq: ChartQuery, base: nat): Piece {
    if cq.searchQuery == "" then Piece([], [])
    else Piece([Or(SearchTests(base))], ["%" + cq.searchQuery + "%"])
  }

  function Plus(a: Piece, b: Piece): Piece {
    Piece(a.clauses + b.clauses, a.params + b.params)
  }

  function ThroughVersion(cq: ChartQuery, kubeappsNamespace: string): Piece {
    var p := NamespacePiece(cq, kubeappsNamespace, 0);
    var q := Plus(p, NamePiece(cq, |p.params|));
    Plus(q, VersionPiece(cq, |q.params|))
  }

  function ThroughRepos(cq: ChartQuery, kubeappsNamespace: string): Piece {
    var p := ThroughVersion(cq, kubeappsNamespace);
    Plus(p, AnyOfPiece(cq.repos, RepoTest(|p.params|)))
  }

  function ThroughCategories(cq: ChartQuery, kubeappsNamespace: string): Piece {
    var p := ThroughRepos(cq, kubeappsNamespace);
    Plus(p, AnyOfPiece(cq.categories, CategoryTest(|p.params|)))
  }

  function Generated(cq: ChartQuery, kubeappsNamespace: string): Piece {
    var p := ThroughCategories(cq, kubeappsNamespace);
    Plus(p, SearchPiece(cq, |p.params|))
  }

  method AddRepoClauses(cq: ChartQuery, given: Piece) returns (clauses: seq<Condition>, params: seq<string>)
    ensures Piece(clauses, params) == Plus(given, AnyOfPiece(cq.repos, RepoTest(|given.params|)))
  {
    clauses, params := given.clauses, given.params;
    var repoClauses := [];
    for i := 0 to |cq.repos|
      invariant params == given.params + FlatMap(NonEmpty, cq.repos[..i])
      invariant repoClauses == Tests(|FlatMap(NonEmpty, cq.repos[..i])|, RepoTest(|given.params|))
    {
      assert cq.repos[..i + 1] == cq.repos[..i] + [cq.repos[i]];
      FlatMapSnoc(NonEmpty, cq.repos[..i], cq.repos[i]);
      if cq.repos[i] != "" {
        params := params + [cq.repos[i]];
        repoClauses := repoClauses + [RepoNameIs(|params|)];
      }
    }
    assert cq.repos[..|cq.repos|] == cq.repos;
    if |repoClauses| > 0 {
      clauses := clauses + [Or(repoClauses)];
    }
  }

  method AddCategoryClauses(cq: ChartQuery, given: Piece) returns (clauses: seq<Condition>, params: seq<string>)
    ensures Piece(clauses, params) == Plus(given, AnyOfPiece(cq.categories, CategoryTest(|given.params|)))
  {
    clauses, params := given.clauses, given.params;
    var categoryClauses := [];
    for i := 0 to |cq.categories|
      invariant params == given.params + FlatMap(NonEmpty, cq.categories[..i])
      invariant categoryClauses == Tests(|FlatMap(NonEmpty, cq.categories[..i])|, CategoryTest(|given.params|))
    {
      assert cq.categories[..i + 1] == cq.categories[..i] + [cq.categories[i]];
      FlatMapSnoc(NonEmpty, cq.categories[..i], cq.categories[i]);
      if cq.categories[i] != "" {
        params := params + [cq.categories[i]];
        categoryClauses := categoryClauses + [TextIs(["category"], |params|)];
      }
    }
    assert cq.categories[..|cq.categories|] == cq.categories;
    if |categoryClauses| > 0 {
      clauses := clauses + [Or(categoryClauses)];
    }
  }

  method GenerateWhereClause(cq: ChartQuery, kubeappsNamespace: string)
      returns (clauses: seq<Condition>, params: seq<string>)
    ensures Piece(clauses, params) == Generated(cq, kubeappsNamespace)
  {
    clauses, params := [], [];
    if cq.namespace != ALL_NAMESPACES {
      params := params + [cq.namespace, kubeappsNamespace];
      clauses := clauses + [Or([NamespaceIs(|params| - 1), NamespaceIs(|params|)])];
    }
    ghost var p1 := NamespacePiece(cq, kubeappsNamespace, 0);
    assert Piece(clauses, params) == p1;
    if cq.chartName != "" {
      params := params + [cq.chartName];
      clauses := clauses + [TextIs(["name"], |params|)];
    }
    assert Piece(clauses, params) == Plus(p1, NamePiece(cq, |p1.params|));
    if cq.version != "" && cq.appVersion != "" {
      params := params + [VersionLiteral(cq.version, cq.appVersion)];
      clauses := clauses + [VersionsContain(|params|)];
    }
    assert Piece(clauses, params) == ThroughVersion(cq, kubeappsNamespace);
    clauses, params := AddRepoClauses(cq, Piece(clauses, params));
    clauses, params := AddCategoryClauses(cq, Piece(clauses, params));
    assert Piece(clauses, params) == ThroughCategories(cq, kubeappsNamespace);
    if cq.searchQuery != "" {
      params := params + ["%" + cq.searchQuery + "%"];
      clauses := clauses + [Or(SearchTests(|params| - 1))];
    }
  }

  // ----- Each piece means its part of the query -----

  predicate Numbered(k: nat, base: nat, n: nat) {
    base + 1 <= k <= base + n
  }

  ghost function Range(base: nat, n: nat): set<nat> {
    set k: nat | k <= base + n && Numbered(k, base, n)
  }

  ghost function Used(clauses: seq<Condition>): set<nat> {
    set c, k | c in clauses && k in Placeholders(c) :: k
  }

  ghost predicate AllHold(server: Server, params: seq<string>, row: Row, clauses: seq<Condition>)
    requires forall c :: c in clauses ==> WellFormed(c, params)
  {
    forall c :: c in clauses ==> Holds(server, params, row, c)
  }

  /** The piece's parameters sit in the full list right after the first `base`. */
  ghost predicate Fits(p: Piece, base: nat, params: seq<string>) {
    base + |p.params| <= |params| && params[base..base + |p.params|] == p.params
  }

  /** Wherever its parameters sit in the full list, the piece uses exactly them and holds when `meaning` does. */
  ghost predicate PieceMeans(server: Server, p: Piece, base: nat, params: seq<string>, row: Row, meaning: bool)
    requires Fits(p, base, params)
  {
    && (forall c :: c in p.clauses ==> WellFormed(c, params))
    && Used(p.clauses) == Range(base, |p.params|)
    && (AllHold(server, params, row, p.clauses) <==> meaning)
  }

  lemma EmptyPieceMeans(server: Server, base: nat, params: seq<string>, row: Row)
    requires base <= |params|
    ensures PieceMeans(server, Piece([], []), base, params, row, true)
  {
    assert params[base..base] == [];
  }

  lemma OneClauseMeans(server: Server, p: Piece, c: Condition, base: nat, params: seq<string>, row: Row, meaning: bool)
    requires Fits(p, base, params)
    requires p.clauses == [c] && WellFormed(c, params) && Placeholders(c) == Range(base, |p.params|)
    requires Holds(server, params, row, c) <==> meaning
    ensures PieceMeans(server, p, base, params, row, meaning)
  {
    assert c in p.clauses;
    assert Used(p.clauses) == Placeholders(c);
  }

  /** A disjunction whose parts all read one of these parameters. */
  lemma OrUses(any: seq<Condition>, params: seq<string>, uses: set<nat>)
    requires forall d :: d in any ==> WellFormed(d, params)
    requires forall k :: k in uses <==> exists d :: d in any && k in Placeholders(d)
    ensures Placeholders(Or(any)) == uses && WellFormed(Or(any), params)
  {
  }

  lemma NamespacePieceRight(server: Server, cq: ChartQuery, kube: string, base: nat, params: seq<string>, row: Row)
    requires Fits(NamespacePiece(cq, kube, base), base, params)
    ensures PieceMeans(server, NamespacePiece(cq, kube, base), base, params, row, NamespaceMatches(cq, kube, row))
  {
    var p := NamespacePiece(cq, kube, base);
    if cq.namespace == ALL_NAMESPACES {
      EmptyPieceMeans(server, base, params, row);
    } else {
      var a, b := NamespaceIs(base + 1), NamespaceIs(base + 2);
      assert params[base] == p.params[0] && params[base + 1] == p.params[1];
      assert a in [a, b] && b in [a, b];
      OrUses([a, b], params, Range(base, 2));
      OrHolds(server, params, row, [a, b]);
      OneClauseMeans(server, p, Or([a, b]), base, params, row, NamespaceMatches(cq, kube, row));
    }
  }

  lemma NamePieceRight(server: Server, cq: ChartQuery, base: nat, params: seq<string>, row: Row)
    requires Fits(NamePiece(cq, base), base, params)
    ensures PieceMeans(server, NamePiece(cq, base), base, params, row, NameMatches(server, cq, row))
  {
    var p := NamePiece(cq, base);
    if cq.chartName == "" {
      EmptyPieceMeans(server, base, params, row);
    } else {
      assert params[base] == p.params[0];
      PathTextMeans(server, row.info, "", "name", cq.chartName);
      OneClauseMeans(server, p, TextIs(["name"], base + 1), base, params, row, NameMatches(server, cq, row));
    }
  }

  /** A version string that needs no escaping in JSON. */
  ghost predicate Plain(s: string) {
    forall c :: c in s ==> c != '"' && c != '\\' && c >= ' '
  }

  function VersionObject(version: string, appVersion: string): map<string, Json> {
    map["version" := JString(version), "app_version" := JString(appVersion)]
  }

  function VersionJson(version: string, appVersion: string): Json {
    JArray([JObject(VersionObject(version, appVersion))])
  }

  /** The server reads a literal spliced from plain strings as it was meant. */
  ghost predicate ReadsLiterals(server: Server) {
    forall v, a :: Plain(v) && Plain(a) ==>
      server.jsonb("[{\"version\":\"" + v + "\",\"app_version\":\"" + a + "\"}]") == Some(VersionJson(v, a))
  }

  ghost predicate IsVersion(v: Json, version: string, appVersion: string) {
    HasField(v, "version", JString(version)) && HasField(v, "app_version", JString(appVersion))
  }

  lemma OneVersionContained(v: Json, version: string, appVersion: string)
    ensures Contains(v, JObject(VersionObject(version, appVersion))) <==> IsVersion(v, version, appVersion)
  {
    var m := VersionObject(version, appVersion);
    assert "version" in m && m["app_version"] == JString(appVersion);
    assert "version" != "app_version" by { assert |"version"| != |"app_version"|; }
    assert m["version"] == JString(version);
    if v.JObject? && "version" in v.fields && "app_version" in v.fields {
      assert Contains(v.fields["version"], m["version"]) <==> v.fields["version"] == m["version"];
      assert Contains(v.fields["app_version"], m["app_version"]) <==> v.fields["app_version"] == m["app_version"];
    }
  }

  lemma VersionContained(versions: Json, version: string, appVersion: string)
    ensures Contains(versions, VersionJson(version, appVersion)) <==>
            versions.JArray? && exists v :: v in versions.items && IsVersion(v, version, appVersion)
  {
    var wanted := JObject(VersionObject(version, appVersion));
    assert VersionJson(version, appVersion) == JArray([wanted]) && wanted in [wanted];
    forall v: Json ensures Contains(v, wanted) <==> IsVersion(v, version, appVersion) {
      OneVersionContained(v, version, appVersion);
    }
    if versions.JArray? {
      assert Contains(versions, JArray([wanted])) <==> exists x | x in versions.items :: Contains(x, wanted);
    }
  }

  lemma VersionPieceRight(server: Server, cq: ChartQuery, base: nat, params: seq<string>, row: Row)
    requires Fits(VersionPiece(cq, base), base, params)
    ensures PieceMeans(server, VersionPiece(cq, base), base, params, row, VersionSelected(server, cq, row))
  {
    var p := VersionPiece(cq, base);
    if cq.version == "" || cq.appVersion == "" {
      EmptyPieceMeans(server, base, params, row);
    } else {
      assert params[base] == p.params[0];
      OneClauseMeans(server, p, VersionsContain(base + 1), base, params, row, VersionSelected(server, cq, row));
    }
  }

  /** For plain versions the version part selects the charts with a version of both. */
  lemma PlainVersionSelected(server: Server, cq: ChartQuery, row: Row)
    requires ReadsLiterals(server) && Plain(cq.version) && Plain(cq.appVersion)
    ensures VersionSelected(server, cq, row) <==> VersionMatches(cq, row)
  {
    var versions := Arrow(Some(row.info), "chartVersions");
    if cq.version != "" && cq.appVersion != "" && versions.Some? {
      VersionContained(versions.value, cq.version, cq.appVersion);
    }
  }

  lemma WantedMembers(values: seq<string>, v: string)
    ensures v in FlatMap(NonEmpty, values) <==> v in values && v != ""
  {
    InFlatMap(NonEmpty, values, v);
  }

  lemma NoneWanted(values: seq<string>)
    ensures FlatMap(NonEmpty, values) == [] <==> forall v :: v in values ==> v == ""
  {
    if FlatMap(NonEmpty, values) != [] {
      WantedMembers(values, FlatMap(NonEmpty, values)[0]);
    }
    forall v | v in values && v != "" ensures FlatMap(NonEmpty, values) != [] {
      WantedMembers(values, v);
    }
  }

  ghost predicate TestsHit(server: Server, params: seq<string>, row: Row, base: nat, tests: seq<Condition>,
                           wanted: seq<string>, hit: string -> bool)
  {
    |tests| == |wanted| &&
    forall i :: 0 <= i < |tests| ==>
      Placeholders(tests[i]) == {base + i + 1} && WellFormed(tests[i], params)
      && (Holds(server, params, row, tests[i]) <==> hit(wanted[i]))
  }

  lemma TestsUse(server: Server, params: seq<string>, row: Row, base: nat, tests: seq<Condition>,
                 wanted: seq<string>, hit: string -> bool)
    requires TestsHit(server, params, row, base, tests, wanted, hit)
    ensures Placeholders(Or(tests)) == Range(base, |tests|) && WellFormed(Or(tests), params)
    ensures Holds(server, params, row, Or(tests)) <==> exists v :: v in wanted && hit(v)
  {
    forall k ensures k in Range(base, |tests|) <==> exists d :: d in tests && k in Placeholders(d) {
      if k in Range(base, |tests|) {
        assert tests[k - base - 1] in tests && k in Placeholders(tests[k - base - 1]);
      }
    }
    OrUses(tests, params, Range(base, |tests|));
    OrHolds(server, params, row, tests);
    if v :| v in wanted && hit(v) {
      var i :| 0 <= i < |wanted| && wanted[i] == v;
      assert tests[i] in tests && Holds(server, params, row, tests[i]);
    }
  }

  /** Some non-empty value, if there is one, is hit. */
  ghost predicate AnyHit(values: seq<string>, hit: string -> bool) {
    (exists v :: v in values && v != "") ==> exists v :: v in values && v != "" && hit(v)
  }

  lemma WantedHit(values: seq<string>, hit: string -> bool)
    ensures AnyHit(values, hit) <==>
            FlatMap(NonEmpty, values) == [] || exists v :: v in FlatMap(NonEmpty, values) && hit(v)
  {
    NoneWanted(values);
    forall v ensures v in FlatMap(NonEmpty, values) <==> v in values && v != "" {
      WantedMembers(values, v);
    }
  }

  /** A disjunction of one test per wanted value. */
  lemma AnyOfRight(server: Server, values: seq<string>, test: nat -> Condition, base: nat, params: seq<string>,
                   row: Row, hit: string -> bool)
    requires Fits(AnyOfPiece(values, test), base, params)
    requires TestsHit(server, params, row, base, Tests(|FlatMap(NonEmpty, values)|, test), FlatMap(NonEmpty, values),
      hit)
    ensures PieceMeans(server, AnyOfPiece(values, test), base, params, row, AnyHit(values, hit))
  {
    var p, wanted := AnyOfPiece(values, test), FlatMap(NonEmpty, values);
    WantedHit(values, hit);
    if wanted == [] {
      EmptyPieceMeans(server, base, params, row);
    } else {
      var tests := Tests(|wanted|, test);
      TestsUse(server, params, row, base, tests, wanted, hit);
      OneClauseMeans(server, p, Or(tests), base, params, row, AnyHit(values, hit));
    }
  }

  function InRepo(row: Row): string -> bool {
    (v: string) => row.repoName == v
  }

  lemma RepoTestsHit(server: Server, params: seq<string>, row: Row, base: nat, wanted: seq<string>)
    requires base + |wanted| <= |params| && params[base..base + |wanted|] == wanted
    ensures TestsHit(server, params, row, base, Tests(|wanted|, RepoTest(base)), wanted, InRepo(row))
  {
    forall i | 0 <= i < |wanted| ensures params[base + i] == wanted[i] {
      assert params[base..base + |wanted|][i] == wanted[i];
    }
  }

  lemma RepoPieceRight(server: Server, cq: ChartQuery, base: nat, params: seq<string>, row: Row)
    requires Fits(AnyOfPiece(cq.repos, RepoTest(base)), base, params)
    ensures PieceMeans(server, AnyOfPiece(cq.repos, RepoTest(base)), base, params, row, RepoMatches(cq, row))
  {
    RepoTestsHit(server, params, row, base, FlatMap(NonEmpty, cq.repos));
    AnyOfRight(server, cq.repos, RepoTest(base), base, params, row, InRepo(row));
    assert AnyHit(cq.repos, InRepo(row)) <==> RepoMatches(cq, row);
  }

  function InCategory(server: Server, row: Row): string -> bool {
    (v: string) => ArrowText(server, Some(row.info), "category") == Some(v)
  }

  lemma CategoryHit(server: Server, cq: ChartQuery, row: Row)
    ensures AnyHit(cq.categories, InCategory(server, row)) <==> CategoryMatches(server, cq, row)
  {
    forall c ensures InCategory(server, row)(c) <==> FieldReads(server, row.info, "category", c) {
      ArrowTextMeans(server, row.info, "category", c);
    }
  }

  lemma CategoryTestsHit(server: Server, params: seq<string>, row: Row, base: nat, wanted: seq<string>)
    requires base + |wanted| <= |params| && params[base..base + |wanted|] == wanted
    ensures TestsHit(server, params, row, base, Tests(|wanted|, CategoryTest(base)), wanted, InCategory(server, row))
  {
    forall i | 0 <= i < |wanted| ensures params[base + i] == wanted[i] {
      assert params[base..base + |wanted|][i] == wanted[i];
    }
  }

  lemma CategoryPieceRight(server: Server, cq: ChartQuery, base: nat, params: seq<string>, row: Row)
    requires Fits(AnyOfPiece(cq.categories, CategoryTest(base)), base, params)
    ensures PieceMeans(server, AnyOfPiece(cq.categories, CategoryTest(base)), base, params, row,
      CategoryMatches(server, cq, row))
  {
    CategoryTestsHit(server, params, row, base, FlatMap(NonEmpty, cq.categories));
    AnyOfRight(server, cq.categories, CategoryTest(base), base, params, row, InCategory(server, row));
    CategoryHit(server, cq, row);
  }

  lemma SearchedMeans(server: Server, info: Json, text: string)
    ensures IsSearched(server, info, text) <==>
      exists i :: 0 <= i < |SEARCHED| && PathText(server, Some(info), SEARCHED[i]) == Some(text)
  {
    PathTextMeans(server, info, "", "name", text);
    PathTextMeans(server, info, "", "description", text);
    PathTextMeans(server, info, "repo", "name", text);
    PathTextMeans(server, info, "", "keywords", text);
    PathTextMeans(server, info, "", "sources", text);
    PathTextMeans(server, info, "maintainers", "name", text);
    assert SEARCHED[0] == ["name"] && SEARCHED[1] == ["description"] && SEARCHED[2] == ["repo", "name"];
    assert SEARCHED[3] == ["keywords"] && SEARCHED[4] == ["sources"] && SEARCHED[5] == ["maintainers", "name"];
  }

  lemma SearchTestsUse(params: seq<string>, base: nat)
    requires base < |params|
    ensures WellFormed(Or(SearchTests(base)), params) && Placeholders(Or(SearchTests(base))) == Range(base, 1)
  {
    var tests := SearchTests(base);
    forall d | d in tests ensures WellFormed(d, params) && Placeholders(d) == {base + 1} {
    }
    assert tests[0] in tests;
    OrUses(tests, params, Range(base, 1));
  }

  lemma SearchTestsHold(server: Server, params: seq<string>, row: Row, base: nat)
    requires base < |params| && WellFormed(Or(SearchTests(base)), params)
    ensures Holds(server, params, row, Or(SearchTests(base))) <==>
      exists i, text :: 0 <= i < |SEARCHED| && PathText(server, Some(row.info), SEARCHED[i]) == Some(text)
        && Ilike(server, text, params[base])
  {
    var tests := SearchTests(base);
    OrHolds(server, params, row, tests);
    forall i | 0 <= i < |SEARCHED|
      ensures tests[i] in tests
      ensures Holds(server, params, row, tests[i]) <==>
        exists text :: PathText(server, Some(row.info), SEARCHED[i]) == Some(text) && Ilike(server, text, params[base])
    {
    }
  }

  lemma SearchPieceRight(server: Server, cq: ChartQuery, base: nat, params: seq<string>, row: Row)
    requires Fits(SearchPiece(cq, base), base, params)
    ensures PieceMeans(server, SearchPiece(cq, base), base, params, row, SearchMatches(server, cq, row))
  {
    var p := SearchPiece(cq, base);
    if cq.searchQuery == "" {
      EmptyPieceMeans(server, base, params, row);
    } else {
      assert params[base] == p.params[0];
      SearchTestsUse(params, base);
      SearchTestsHold(server, params, row, base);
      forall text ensures IsSearched(server, row.info, text) <==>
        exists i :: 0 <= i < |SEARCHED| && PathText(server, Some(row.info), SEARCHED[i]) == Some(text)
      {
        SearchedMeans(server, row.info, text);
      }
      OneClauseMeans(server, p, Or(SearchTests(base)), base, params, row, SearchMatches(server, cq, row));
    }
  }

  // ----- Main results -----

  lemma FitsBoth(p: Piece, q: Piece, params: seq<string>)
    requires Fits(Plus(p, q), 0, params)
    ensures Fits(p, 0, params) && Fits(q, |p.params|, params)
  {
    assert params[0..|p.params|] == params[0..|p.params| + |q.params|][..|p.params|] == p.params;
    assert params[|p.params|..|p.params| + |q.params|] == params[0..|p.params| + |q.params|][|p.params|..] == q.params;
  }

  lemma PlusMeans(server: Server, p: Piece, q: Piece, params: seq<string>, row: Row, m: bool, n: bool)
    requires Fits(Plus(p, q), 0, params)
    requires Fits(p, 0, params) && PieceMeans(server, p, 0, params, row, m)
    requires Fits(q, |p.params|, params) && PieceMeans(server, q, |p.params|, params, row, n)
    ensures PieceMeans(server, Plus(p, q), 0, params, row, m && n)
  {
    var r := Plus(p, q);
    assert forall c :: c in r.clauses <==> c in p.clauses || c in q.clauses;
    assert Used(r.clauses) == Used(p.clauses) + Used(q.clauses);
    assert forall k :: k in Range(0, |r.params|) <==> k in Range(0, |p.params|) || k in Range(|p.params|, |q.params|);
  }

  ghost predicate SelectsThroughVersion(server: Server, cq: ChartQuery, kube: string, row: Row) {
    NamespaceMatches(cq, kube, row) && NameMatches(server, cq, row) && VersionSelected(server, cq, row)
  }

  lemma ThroughVersionMeans(server: Server, cq: ChartQuery, kube: string, params: seq<string>, row: Row)
    requires Fits(ThroughVersion(cq, kube), 0, params)
    ensures PieceMeans(server, ThroughVersion(cq, kube), 0, params, row, SelectsThroughVersion(server, cq, kube, row))
  {
    var p1 := NamespacePiece(cq, kube, 0);
    var q2 := NamePiece(cq, |p1.params|);
    var p2 := Plus(p1, q2);
    var q3 := VersionPiece(cq, |p2.params|);
    FitsBoth(p2, q3, params);
    FitsBoth(p1, q2, params);
    NamespacePieceRight(server, cq, kube, 0, params, row);
    NamePieceRight(server, cq, |p1.params|, params, row);
    var m2 := NamespaceMatches(cq, kube, row) && NameMatches(server, cq, row);
    PlusMeans(server, p1, q2, params, row, NamespaceMatches(cq, kube, row), NameMatches(server, cq, row));
    VersionPieceRight(server, cq, |p2.params|, params, row);
    PlusMeans(server, p2, q3, params, row, m2, VersionSelected(server, cq, row));
  }

  ghost predicate SelectsThroughCategories(server: Server, cq: ChartQuery, kube: string, row: Row) {
    SelectsThroughVersion(server, cq, kube, row) && RepoMatches(cq, row) && CategoryMatches(server, cq, row)
  }

  lemma ThroughCategoriesMeans(server: Server, cq: ChartQuery, kube: string, params: seq<string>, row: Row)
    requires Fits(ThroughCategories(cq, kube), 0, params)
    ensures PieceMeans(server, ThroughCategories(cq, kube), 0, params, row,
                       SelectsThroughCategories(server, cq, kube, row))
  {
    var p3 := ThroughVersion(cq, kube);
    var q4 := AnyOfPiece(cq.repos, RepoTest(|p3.params|));
    var p4 := Plus(p3, q4);
    var q5 := AnyOfPiece(cq.categories, CategoryTest(|p4.params|));
    FitsBoth(p4, q5, params);
    FitsBoth(p3, q4, params);
    ThroughVersionMeans(server, cq, kube, params, row);
    RepoPieceRight(server, cq, |p3.params|, params, row);
    var m3 := SelectsThroughVersion(server, cq, kube, row);
    PlusMeans(server, p3, q4, params, row, m3, RepoMatches(cq, row));
    CategoryPieceRight(server, cq, |p4.params|, params, row);
    PlusMeans(server, p4, q5, params, row, m3 && RepoMatches(cq, row), CategoryMatches(server, cq, row));
  }

  lemma GeneratedMeans(server: Server, cq: ChartQuery, kube: string, row: Row)
    ensures Fits(Generated(cq, kube), 0, Generated(cq, kube).params)
    ensures PieceMeans(server, Generated(cq, kube), 0, Generated(cq, kube).params, row, Selects(server, cq, kube, row))
  {
    var params := Generated(cq, kube).params;
    var p5 := ThroughCategories(cq, kube);
    var q6 := SearchPiece(cq, |p5.params|);
    assert params[0..|params|] == params;
    FitsBoth(p5, q6, params);
    ThroughCategoriesMeans(server, cq, kube, params, row);
    SearchPieceRight(server, cq, |p5.params|, params, row);
    PlusMeans(server, p5, q6, params, row, SelectsThroughCategories(server, cq, kube, row),
      SearchMatches(server, cq, row));
  }

  lemma RowSelected(server: Server, cq: ChartQuery, kube: string, row: Row)
    ensures var g := Generated(cq, kube);
            && Used(g.clauses) == Range(0, |g.params|)
            && (forall c :: c in g.clauses ==> WellFormed(c, g.params))
            && (EvalAnd(server, g.params, row, g.clauses) == True <==> Selects(server, cq, kube, row))
  {
    var g := Generated(cq, kube);
    GeneratedMeans(server, cq, kube, row);
    AndHolds(server, g.params, row, g.clauses);
  }

  lemma CastsOfBoth(a: seq<Condition>, b: seq<Condition>)
    ensures AllCasts(a + b) == AllCasts(a) + AllCasts(b)
  {
    assert forall c :: c in a + b <==> c in a || c in b;
  }

  lemma NoCasts(clauses: seq<Condition>)
    requires forall c :: c in clauses ==> Casts(c) == {}
    ensures AllCasts(clauses) == {}
  {
  }

  lemma OrCastsNothing(any: seq<Condition>)
    requires forall d :: d in any ==> Casts(d) == {}
    ensures AllCasts([Or(any)]) == {}
  {
    assert Casts(Or(any)) == {};
  }

  lemma AnyOfCastsNothing(values: seq<string>, test: nat -> Condition)
    requires forall i :: Casts(test(i)) == {}
    ensures AllCasts(AnyOfPiece(values, test).clauses) == {}
  {
    OrCastsNothing(Tests(|FlatMap(NonEmpty, values)|, test));
  }

  lemma VersionCasts(cq: ChartQuery, base: nat)
    ensures AllCasts(VersionPiece(cq, base).clauses)
         == if cq.version == "" || cq.appVersion == "" then {} else {base + 1}
  {
    var c := VersionsContain(base + 1);
    assert c in [c] && Casts(c) == {base + 1};
  }

  lemma SearchCastsNothing(cq: ChartQuery, base: nat)
    ensures AllCasts(SearchPiece(cq, base).clauses) == {}
  {
    OrCastsNothing(SearchTests(base));
  }

  lemma ThroughVersionCasts(cq: ChartQuery, kube: string)
    ensures var before := Plus(NamespacePiece(cq, kube, 0), NamePiece(cq, |NamespacePiece(cq, kube, 0).params|));
            AllCasts(ThroughVersion(cq, kube).clauses) == AllCasts(VersionPiece(cq, |before.params|).clauses)
  {
    var p1 := NamespacePiece(cq, kube, 0);
    var p2 := Plus(p1, NamePiece(cq, |p1.params|));
    if p1.clauses != [] {
      OrCastsNothing([NamespaceIs(1), NamespaceIs(2)]);
    }
    CastsOfBoth(p1.clauses, NamePiece(cq, |p1.params|).clauses);
    NoCasts(NamePiece(cq, |p1.params|).clauses);
    CastsOfBoth(p2.clauses, VersionPiece(cq, |p2.params|).clauses);
  }

  lemma LaterCastNothing(cq: ChartQuery, kube: string)
    ensures AllCasts(Generated(cq, kube).clauses) == AllCasts(ThroughVersion(cq, kube).clauses)
    ensures ThroughVersion(cq, kube).params <= Generated(cq, kube).params
  {
    var p3 := ThroughVersion(cq, kube);
    var p4 := ThroughRepos(cq, kube);
    var p5 := ThroughCategories(cq, kube);
    AnyOfCastsNothing(cq.repos, RepoTest(|p3.params|));
    CastsOfBoth(p3.clauses, AnyOfPiece(cq.repos, RepoTest(|p3.params|)).clauses);
    AnyOfCastsNothing(cq.categories, CategoryTest(|p4.params|));
    CastsOfBoth(p4.clauses, AnyOfPiece(cq.categories, CategoryTest(|p4.params|)).clauses);
    SearchCastsNothing(cq, |p5.params|);
    CastsOfBoth(p5.clauses, SearchPiece(cq, |p5.params|).clauses);
  }

  /** The server cannot read the literal the versions are spliced into. */
  ghost predicate BadLiteral(server: Server, cq: ChartQuery) {
    && cq.version != "" && cq.appVersion != ""
    && server.jsonb("[{\"version\":\"" + cq.version + "\",\"app_version\":\"" + cq.appVersion + "\"}]").None?
  }

  lemma FailsIffBadLiteral(server: Server, cq: ChartQuery, kube: string)
    ensures CannotCast(server, Generated(cq, kube).params, Generated(cq, kube).clauses) <==> BadLiteral(server, cq)
  {
    var g := Generated(cq, kube);
    var p1 := NamespacePiece(cq, kube, 0);
    var base := |p1.params| + |NamePiece(cq, |p1.params|).params|;
    ThroughVersionCasts(cq, kube);
    LaterCastNothing(cq, kube);
    VersionCasts(cq, base);
    if cq.version != "" && cq.appVersion != "" {
      assert ThroughVersion(cq, kube).params[base] == VersionLiteral(cq.version, cq.appVersion);
      assert g.params[base] == VersionLiteral(cq.version, cq.appVersion);
    }
  }

  /** Whatever is in the catalogue: the query fails exactly for a version literal the server cannot read, and otherwise
      gives the rows that meet every part of it, in order; its placeholders are exactly $1 to $n for n parameters. */
  lemma WhereClauseSelects(server: Server, cq: ChartQuery, kube: string, rows: seq<Row>)
    ensures var g := Generated(cq, kube);
            && Used(g.clauses) == Range(0, |g.params|)
            && (forall c :: c in g.clauses ==> WellFormed(c, g.params))
            && Where(server, g.params, g.clauses, rows) ==
               if BadLiteral(server, cq) then None
               else Some(FlatMap(KeepIf((row: Row) => Selects(server, cq, kube, row)), rows))
  {
    var g := Generated(cq, kube);
    RowSelected(server, cq, kube, Row("", "", JNull));
    forall row ensures EvalAnd(server, g.params, row, g.clauses) == True <==> Selects(server, cq, kube, row) {
      RowSelected(server, cq, kube, row);
    }
    FailsIffBadLiteral(server, cq, kube);
    FlatMapSame(KeepIf((row: Row) => EvalAnd(server, g.params, row, g.clauses) == True),
                KeepIf((row: Row) => Selects(server, cq, kube, row)), rows);
  }

  /** For versions that need no escaping it does not fail, and those are the rows asked for. */
  lemma WhereClauseMeansQuery(server: Server, cq: ChartQuery, kube: string, rows: seq<Row>)
    requires ReadsLiterals(server) && Plain(cq.version) && Plain(cq.appVersion)
    ensures var g := Generated(cq, kube);
            && (forall c :: c in g.clauses ==> WellFormed(c, g.params))
            && Where(server, g.params, g.clauses, rows) ==
               Some(FlatMap(KeepIf((row: Row) => Matches(server, cq, kube, row)), rows))
  {
    WhereClauseSelects(server, cq, kube, rows);
    forall row ensures Selects(server, cq, kube, row) <==> Matches(server, cq, kube, row) {
      PlainVersionSelected(server, cq, row);
    }
    FlatMapSame(KeepIf((row: Row) => Selects(server, cq, kube, row)),
                KeepIf((row: Row) => Matches(server, cq, kube, row)), rows);
  }

  // ----- A string spliced into a literal -----

  // The escapes of section 7 of RFC 8259, with the length of each; surrogate pairs are left out.
  function Escape(t: string): Option<(char, nat)> {
    if |t| < 2 then None
    else if t[1] == '"' || t[1] == '\\' || t[1] == '/' then Some((t[1], 2))
    else if t[1] == 'b' then Some(('\U{8}', 2))
    else if t[1] == 'f' then Some(('\U{C}', 2))
    else if t[1] == 'n' then Some(('\n', 2))
    else if t[1] == 'r' then Some(('\r', 2))
    else if t[1] == 't' then Some(('\t', 2))
    else if t[1] == 'u' && |t| >= 6 then
      var a, b, c, d := HexValue(t[2]), HexValue(t[3]), HexValue(t[4]), HexValue(t[5]);
      if a.None? || b.None? || c.None? || d.None? then None
      else
        var code := ((a.value * 16 + b.value) * 16 + c.value) * 16 + d.value;
        if code < 0xD800 || 0xE000 <= code < 0x10000 then Some((code as char, 6)) else None
    else None
  }

  /** The JSON string whose opening quote has just been read, and the text after its closing quote. */
  function StringToken(t: string): Option<(string, string)>
    decreases |t|
  {
    if t == "" || t[0] < ' ' then None
    else if t[0] == '"' then Some(("", t[1..]))
    else
      var first := if t[0] == '\\' then Escape(t) else Some((t[0], 1));
      if first.None? then None
      else
        var more := StringToken(t[first.value.1..]);
        if more.None? then None else Some(([first.value.0] + more.value.0, more.value.1))
  }

  lemma {:induction false} TokenLength(t: string)
    ensures StringToken(t).Some? ==> |t| >= |StringToken(t).value.0| + 1 + |StringToken(t).value.1|
    decreases |t|
  {
    if t != "" && t[0] >= ' ' && t[0] != '"' {
      var first := if t[0] == '\\' then Escape(t) else Some((t[0], 1));
      if first.Some? {
        TokenLength(t[first.value.1..]);
      }
    }
  }

  /** Spliced between quotes, a version is read back as itself, up to the closing quote, exactly when it is plain. */
  lemma {:induction false} SplicedReadsBackIff(v: string, rest: string)
    ensures StringToken(v + "\"" + rest) == Some((v, rest)) <==> Plain(v)
  {
    var t := v + "\"" + rest;
    if v == "" {
      assert t[0] == '"' && t[1..] == rest;
    } else if v[0] == '\\' {
      assert v[0] in v;
      if Escape(t).Some? {
        TokenLength(t[Escape(t).value.1..]);
      }
    } else if v[0] == '"' || v[0] < ' ' {
      assert v[0] in v && t[0] == v[0];
    } else {
      SplicedReadsBackIff(v[1..], rest);
      assert t[1..] == v[1..] + "\"" + rest && t[0] == v[0];
      assert v == [v[0]] + v[1..];
      assert forall c :: c in v <==> c == v[0] || c in v[1..];
      assert Plain(v) <==> Plain(v[1..]);
      var more := StringToken(t[1..]);
      if more.Some? {
        assert ([v[0]] + more.value.0)[1..] == more.value.0;
      }
    }
  }

  /** Case folding leaves the characters LIKE knows alone. */
  ghost predicate FoldKeepsSpecials(server: Server) {
    forall c :: (server.fold(c) == '%' <==> c == '%') && (server.fold(c) == '_' <==> c == '_')
             && (server.fold(c) == '\\' <==> c == '\\')
  }

  /** A search for text without wildcards finds it anywhere in a field, whatever its case. */
  lemma SearchFindsSubstring(server: Server, text: string, wanted: string)
    requires FoldKeepsSpecials(server) && Literal(wanted)
    ensures Ilike(server, text, "%" + wanted + "%") <==>
            exists i :: 0 <= i <= |text| && Fold(server, wanted) <= Fold(server, text[i..])
  {
    assert Fold(server, "%" + wanted + "%") == "%" + Fold(server, wanted) + "%";
    forall c | c in Fold(server, wanted) ensures c != '%' && c != '_' && c != '\\' {
      var i :| 0 <= i < |wanted| && Fold(server, wanted)[i] == c;
      assert wanted[i] in wanted;
    }
    LikeFindsSubstring(Fold(server, text), Fold(server, wanted));
    forall i | 0 <= i <= |text| ensures Fold(server, text)[i..] == Fold(server, text[i..]) {
    }
    if i :| 0 <= i <= |Fold(server, text)| && Fold(server, wanted) <= Fold(server, text)[i..] {
      assert Fold(server, wanted) <= Fold(server, text[i..]);
    }
    if i :| 0 <= i <= |text| && Fold(server, wanted) <= Fold(server, text[i..]) {
      assert Fold(server, wanted) <= Fold(server, text)[i..];
    }
  }

  /** The maintainers part of a search is dead: in a chart it is an array, and an array has no field. */
  lemma MaintainersNeverMatch(server: Server, params: seq<string>, row: Row, k: nat, maintainers: seq<Json>)
    requires 1 <= k <= |params| && HasField(row.info, "maintainers", JArray(maintainers))
    ensures WellFormed(TextLike(["maintainers", "name"], k), params)
    ensures Eval(server, params, row, TextLike(["maintainers", "name"], k)) == Unknown
  {
    assert ["maintainers", "name"][1..] == ["name"];
  }
}
