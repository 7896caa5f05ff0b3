/** As much of PostgreSQL as the catalogue query needs: jsonb access and containment, LIKE, and three-valued
    conditions over numbered parameters. */
module Sql {
  import opened Wrappers
  import opened Sequences
  import opened Text

  datatype Json =
    JNull | JString(s: string) | JNumber(n: int) | JArray(items: seq<Json>) | JObject(fields: map<string, Json>)

  datatype Row = Row(repoNamespace: string, repoName: string, info: Json)

  /** What is left to the server: how it prints an array or object, reads a jsonb literal and folds case. */
  datatype Server = Server(show: Json -> string, jsonb: string -> Option<Json>, fold: char -> char)

  // The -> operator; None is NULL.
  function Arrow(j: Option<Json>, key: string): Option<Json> {
    if j.Some? && j.value.JObject? && key in j.value.fields then Some(j.value.fields[key]) else None
  }

  // The ->> operator.
  function ArrowText(server: Server, j: Option<Json>, key: string): Option<string> {
    match Arrow(j, key)
    case None => None
    case Some(JNull) => None
    case Some(JString(s)) => Some(s)
    case Some(v) => Some(server.show(v))
  }

  // info -> 'p1' -> ... ->> 'pn'
  function PathText(server: Server, j: Option<Json>, path: seq<string>): Option<string>
    requires path != []
    decreases |path|
  {
    if |path| == 1 then ArrowText(server, j, path[0]) else PathText(server, Arrow(j, path[0]), path[1..])
  }

  /** The object has this under the key. */
  ghost predicate HasField(j: Json, key: string, v: Json) {
    j.JObject? && key in j.fields && j.fields[key] == v
  }

  /** A value as text: a string is its text, null has none, the rest is as the server prints it. */
  ghost predicate Reads(server: Server, v: Json, text: string) {
    match v
    case JNull => false
    case JString(s) => text == s
    case _ => text == server.show(v)
  }

  ghost predicate FieldReads(server: Server, j: Json, key: string, text: string) {
    exists v :: HasField(j, key, v) && Reads(server, v, text)
  }

  lemma ArrowTextMeans(server: Server, j: Json, key: string, text: string)
    ensures ArrowText(server, Some(j), key) == Some(text) <==> FieldReads(server, j, key, text)
  {
    if j.JObject? && key in j.fields {
      assert HasField(j, key, j.fields[key]);
    }
  }

  lemma PathTextMeans(server: Server, j: Json, outer: string, key: string, text: string)
    ensures PathText(server, Some(j), [key]) == Some(text) <==> FieldReads(server, j, key, text)
    ensures PathText(server, Some(j), [outer, key]) == Some(text) <==>
      exists inner :: HasField(j, outer, inner) && FieldReads(server, inner, key, text)
  {
    ArrowTextMeans(server, j, key, text);
    assert [outer, key][1..] == [key];
    if j.JObject? && outer in j.fields {
      assert HasField(j, outer, j.fields[outer]);
      ArrowTextMeans(server, j.fields[outer], key, text);
    }
  }

  // The @> operator.
  predicate Contains(a: Json, b: Json)
    decreases b
  {
    match b
    case JArray(wanted) => a.JArray? && forall w | w in wanted :: exists x | x in a.items :: Contains(x, w)
    case JObject(wanted) => a.JObject? && forall k | k in wanted :: k in a.fields && Contains(a.fields[k], wanted[k])
    case _ => a == b
  }

  /** LIKE: % stands for any text, _ for one character, a backslash takes the next character as it is (a trailing
      one, which the server refuses, stands for itself here). */
  predicate Like(text: string, pattern: string)
    decreases |text| + |pattern|
  {
    if pattern == "" then text == ""
    else if pattern[0] == '%' then Like(text, pattern[1..]) || (text != "" && Like(text[1..], pattern))
    else if pattern[0] == '_' then text != "" && Like(text[1..], pattern[1..])
    else if pattern[0] == '\\' && |pattern| > 1 then text != "" && text[0] == pattern[1]
      && Like(text[1..], pattern[2..])
    else text != "" && text[0] == pattern[0] && Like(text[1..], pattern[1..])
  }

  function Fold(server: Server, s: string): (r: string)
    ensures |r| == |s|
  {
    seq(|s|, i requires 0 <= i < |s| => server.fold(s[i]))
  }

  predicate Ilike(server: Server, text: string, pattern: string) {
    Like(Fold(server, text), Fold(server, pattern))
  }

  /** No character of s means anything to LIKE. */
  predicate Literal(s: string) {
    '%' !in s && '_' !in s && '\\' !in s
  }

  lemma {:induction false} AnyTextMatchesPercent(text: string)
    ensures Like(text, "%")
  {
    if text != "" {
      AnyTextMatchesPercent(text[1..]);
    } else {
      assert "%"[1..] == "";
    }
  }

  lemma {:induction false} LikePrefix(text: string, s: string)
    requires Literal(s)
    ensures Like(text, s + "%") <==> s <= text
  {
    if s == "" {
      assert s + "%" == "%";
      AnyTextMatchesPercent(text);
    } else {
      assert (s + "%")[1..] == s[1..] + "%";
      assert (s + "%")[0] == s[0] && s[0] in s;
      if text != "" {
        LikePrefix(text[1..], s[1..]);
        assert s <= text <==> s[0] == text[0] && s[1..] <= text[1..] by {
          assert s == [s[0]] + s[1..] && text == [text[0]] + text[1..];
        }
      }
    }
  }

  /** A pattern %s% finds s anywhere, when no character of s is special. */
  lemma {:induction false} LikeFindsSubstring(text: string, s: string)
    requires Literal(s)
    ensures Like(text, "%" + s + "%") <==> exists i :: 0 <= i <= |text| && s <= text[i..]
  {
    assert ("%" + s + "%")[1..] == s + "%" && text[0..] == text;
    LikePrefix(text, s);
    if text != "" {
      LikeFindsSubstring(text[1..], s);
      if i :| 0 <= i <= |text| && s <= text[i..] && !(s <= text) {
        assert text[1..][i - 1..] == text[i..];
      }
      if i :| 0 <= i <= |text[1..]| && s <= text[1..][i..] {
        assert text[i + 1..] == text[1..][i..];
      }
    }
  }

  /** An underscore matches any one character. */
  lemma {:induction false} LikeOneByOne(text: string, pattern: string)
    requires '%' !in pattern && '\\' !in pattern
    ensures Like(text, pattern) <==>
            |text| == |pattern| && forall i :: 0 <= i < |pattern| ==> pattern[i] == '_' || pattern[i] == text[i]
  {
    if pattern != "" && text != "" {
      LikeOneByOne(text[1..], pattern[1..]);
      assert forall i :: 0 < i < |pattern| ==> pattern[i] == pattern[1..][i - 1];
      assert forall i :: 0 < i < |text| ==> text[i] == text[1..][i - 1];
    }
  }

  // ----- Conditions -----

  datatype Condition =
    | NamespaceIs(k: nat)                    // repo_namespace = $k
    | RepoNameIs(k: nat)                     // repo_name = $k
    | TextIs(path: seq<string>, k: nat)      // info->>'f' = $k
    | TextLike(path: seq<string>, k: nat)    // info ->> 'f' ILIKE $k
    | VersionsContain(k: nat)                // info->'chartVersions' @> $k::jsonb
    | Or(any: seq<Condition>)

  datatype Truth = True | False | Unknown

  function Lift(b: bool): Truth {
    if b then True else False
  }

  function Either(a: Truth, b: Truth): Truth {
    if a.True? || b.True? then True else if a.False? && b.False? then False else Unknown
  }

  function Both(a: Truth, b: Truth): Truth {
    if a.False? || b.False? then False else if a.True? && b.True? then True else Unknown
  }

  function Placeholders(c: Condition): set<nat> {
    match c
    case Or(any) => set d, k | d in any && k in Placeholders(d) :: k
    case _ => {c.k}
  }

  ghost predicate WellFormed(c: Condition, params: seq<string>) {
    && (forall k :: k in Placeholders(c) ==> 1 <= k <= |params|)
    && match c
       case TextIs(path, _) => path != []
       case TextLike(path, _) => path != []
       case Or(any) => forall d :: d in any ==> WellFormed(d, params)
       case _ => true
  }

  function Eval(server: Server, params: seq<string>, row: Row, c: Condition): Truth
    requires WellFormed(c, params)
  {
    match c
    case NamespaceIs(k) => assert k in Placeholders(c); Lift(row.repoNamespace == params[k - 1])
    case RepoNameIs(k) => assert k in Placeholders(c); Lift(row.repoName == params[k - 1])
    case TextIs(path, k) =>
      assert k in Placeholders(c);
      var text := PathText(server, Some(row.info), path);
      if text.None? then Unknown else Lift(text.value == params[k - 1])
    case TextLike(path, k) =>
      assert k in Placeholders(c);
      var text := PathText(server, Some(row.info), path);
      if text.None? then Unknown else Lift(Ilike(server, text.value, params[k - 1]))
    case VersionsContain(k) =>
      assert k in Placeholders(c);
      var versions, wanted := Arrow(Some(row.info), "chartVersions"), server.jsonb(params[k - 1]);
      // A literal that cannot be cast has failed the query before, see Where.
      if versions.None? || wanted.None? then Unknown else Lift(Contains(versions.value, wanted.value))
    case Or(any) => EvalOr(server, params, row, any)
  }

  function EvalOr(server: Server, params: seq<string>, row: Row, any: seq<Condition>): Truth
    requires forall d :: d in any ==> WellFormed(d, params)
  {
    if any == [] then False else Either(Eval(server, params, row, any[0]), EvalOr(server, params, row, any[1..]))
  }

  function EvalAnd(server: Server, params: seq<string>, row: Row, all: seq<Condition>): Truth
    requires forall d :: d in all ==> WellFormed(d, params)
  {
    if all == [] then True else Both(Eval(server, params, row, all[0]), EvalAnd(server, params, row, all[1..]))
  }

  /** WHERE keeps a row for which the condition is true, not for one for which it is unknown. */
  ghost predicate Holds(server: Server, params: seq<string>, row: Row, c: Condition)
    requires WellFormed(c, params)
  {
    Eval(server, params, row, c) == True
  }

  /** Without negation NULL may be read as false: a disjunction holds when some part does. */
  lemma {:induction false} OrHolds(server: Server, params: seq<string>, row: Row, any: seq<Condition>)
    requires forall d :: d in any ==> WellFormed(d, params)
    ensures EvalOr(server, params, row, any) == True <==> exists d :: d in any && Holds(server, params, row, d)
  {
    if any != [] {
      OrHolds(server, params, row, any[1..]);
      assert any == [any[0]] + any[1..];
      assert (exists d :: d in any && Holds(server, params, row, d)) <==>
        Holds(server, params, row, any[0]) || exists d :: d in any[1..] && Holds(server, params, row, d);
    }
  }

  lemma {:induction false} AndHolds(server: Server, params: seq<string>, row: Row, all: seq<Condition>)
    requires forall d :: d in all ==> WellFormed(d, params)
    ensures EvalAnd(server, params, row, all) == True <==> forall d :: d in all ==> Holds(server, params, row, d)
  {
    if all != [] {
      AndHolds(server, params, row, all[1..]);
      assert all == [all[0]] + all[1..];
      assert (forall d :: d in all ==> Holds(server, params, row, d)) <==>
        Holds(server, params, row, all[0]) && forall d :: d in all[1..] ==> Holds(server, params, row, d);
    }
  }

  // ----- The query -----

  /** The parameters a condition casts to jsonb. */
  function Casts(c: Condition): set<nat> {
    match c
    case VersionsContain(k) => {k}
    case Or(any) => set d, k | d in any && k in Casts(d) :: k
    case _ => {}
  }

  ghost function AllCasts(clauses: seq<Condition>): set<nat> {
    set c, k | c in clauses && k in Casts(c) :: k
  }

  ghost predicate CannotCast(server: Server, params: seq<string>, clauses: seq<Condition>) {
    exists k :: k in AllCasts(clauses) && 1 <= k <= |params| && server.jsonb(params[k - 1]).None?
  }

  /** SELECT ... WHERE: the rows for which all clauses hold; None is the error of a parameter that cannot be cast, which
      fails the query whatever the rows are. */
  ghost function Where(server: Server, params: seq<string>, clauses: seq<Condition>, rows: seq<Row>): Option<seq<Row>>
    requires forall c :: c in clauses ==> WellFormed(c, params)
  {
    if CannotCast(server, params, clauses) then None
    else Some(FlatMap(KeepIf((row: Row) => EvalAnd(server, params, row, clauses) == True), rows))
  }
}
