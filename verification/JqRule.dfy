/** Filter rules: the dashboard prints a list of names or a pattern as a jq program with variables and reads it back
    (dashboard/src/shared/jq.ts); the syncer compiles the program and keeps the charts that satisfy it. */
module JqRule {
  import opened Wrappers
  import opened Sequences
  import opened Sorting
  import opened Text
  import opened Catalogue

  // ----- The dashboard: from names to a rule and back -----

  /** A rule as the dashboard holds it: the variables in the order of the object's keys. */
  datatype Rule = Rule(jq: string, variables: seq<(string, string)>)

  // What String.prototype.trim takes off.
  predicate IsSpace(c: char) {
    '\t' <= c <= '\r' || c == ' ' || c == '\U{A0}' || c == '\U{1680}' || '\U{2000}' <= c <= '\U{200A}'
    || c == '\U{2028}' || c == '\U{2029}' || c == '\U{202F}' || c == '\U{205F}' || c == '\U{3000}' || c == '\U{FEFF}'
  }

  function TrimStart(s: string): (r: string)
    ensures r == "" || !IsSpace(r[0])
  {
    if s != "" && IsSpace(s[0]) then TrimStart(s[1..]) else s
  }

  function TrimEnd(s: string): (r: string)
    ensures r == "" || !IsSpace(r[|r| - 1])
    ensures r <= s
  {
    if s != "" && IsSpace(s[|s| - 1]) then TrimEnd(s[..|s| - 1]) else s
  }

  function Trim(s: string): string {
    TrimEnd(TrimStart(s))
  }

  /** White space and line ends as ECMAScript lists them. */
  ghost predicate IsWhite(c: char) {
    c in {'\t', '\n', '\U{B}', '\U{C}', '\r', ' ', '\U{A0}', '\U{1680}', '\U{2000}', '\U{2001}', '\U{2002}', '\U{2003}',
          '\U{2004}', '\U{2005}', '\U{2006}', '\U{2007}', '\U{2008}', '\U{2009}', '\U{200A}', '\U{2028}', '\U{2029}',
          '\U{202F}', '\U{205F}', '\U{3000}', '\U{FEFF}'}
  }

  lemma {:induction false} TrimStartTakes(s: string) returns (front: string)
    ensures s == front + TrimStart(s) && forall c :: c in front ==> IsSpace(c)
  {
    if s != "" && IsSpace(s[0]) {
      var more := TrimStartTakes(s[1..]);
      front := [s[0]] + more;
      assert s == [s[0]] + s[1..];
    } else {
      front := "";
    }
  }

  lemma {:induction false} TrimEndTakes(s: string) returns (back: string)
    ensures s == TrimEnd(s) + back && forall c :: c in back ==> IsSpace(c)
  {
    if s != "" && IsSpace(s[|s| - 1]) {
      var more := TrimEndTakes(s[..|s| - 1]);
      back := more + [s[|s| - 1]];
      assert s == s[..|s| - 1] + [s[|s| - 1]];
    } else {
      back := "";
    }
  }

  lemma SpaceIsWhite(c: char)
    ensures IsSpace(c) <==> IsWhite(c)
  {
  }

  /** Trimming takes white space off both ends, all of it and nothing else. */
  lemma TrimMeans(s: string) returns (front: string, back: string)
    ensures s == front + Trim(s) + back && forall c :: c in front || c in back ==> IsWhite(c)
    ensures Trim(s) != "" ==> !IsWhite(Trim(s)[0]) && !IsWhite(Trim(s)[|Trim(s)| - 1])
  {
    front := TrimStartTakes(s);
    back := TrimEndTakes(TrimStart(s));
    forall c | c in front || c in back ensures IsWhite(c) {
      SpaceIsWhite(c);
    }
    var t := Trim(s);
    if t != "" {
      assert t[0] == TrimStart(s)[0];
      SpaceIsWhite(t[0]);
      SpaceIsWhite(t[|t| - 1]);
    }
  }

  function Names(names: string): (r: seq<string>)
    ensures |r| > 0
  {
    Map(Trim, Split(names, ','))
  }

  function Var(i: nat): string {
    "$var" + Digits(i)
  }

  function Vars(n: nat): (vars: seq<string>)
    ensures |vars| == n
  {
    seq(n, i requires 0 <= i < n => Var(i))
  }

  function NameTest(v: string): string {
    ".name == " + v
  }

  function AnyName(vars: seq<string>): string {
    Join(Map(NameTest, vars), " or ")
  }

  function Variables(values: seq<string>): seq<(string, string)> {
    seq(|values|, i requires 0 <= i < |values| => (Var(i), values[i]))
  }

  const REGEX_JQ := ".name | test($var)"
  const NOT_JQ := " | not"

  function FilterRule(names: string, regex: bool, exclude: bool): Rule {
    var filter :=
      if regex then Rule(REGEX_JQ, [("$var", names)])
      else Rule(AnyName(Vars(|Names(names)|)), Variables(Names(names)));
    if exclude then filter.(jq := filter.jq + NOT_JQ) else filter
  }

  method ToFilterRule(names: string, regex: bool, exclude: bool) returns (filter: Rule)
    ensures filter == FilterRule(names, regex, exclude)
  {
    if regex {
      filter := Rule(".name | test($var)", [("$var", names)]);
    } else {
      var namesArray := Names(names);
      var acc := [];
      var tests := [];
      for i := 0 to |namesArray|
        invariant acc == Variables(namesArray[..i])
        invariant tests == Map(NameTest, Vars(i))
      {
        assert Variables(namesArray[..i + 1]) == Variables(namesArray[..i]) + [(Var(i), namesArray[i])];
        acc := acc + [(Var(i), namesArray[i])];
        tests := tests + [NameTest(Var(i))];
        assert Vars(i + 1) == Vars(i) + [Var(i)];
      }
      assert namesArray[..|namesArray|] == namesArray;
      filter := Rule(Join(tests, " or "), acc);
    }
    if exclude {
      filter := filter.(jq := filter.jq + " | not");
    }
  }

  /** The test for n names. */
  ghost function NamesText(n: nat): string
    requires n > 0
  {
    if n == 1 then ".name == $var0" else NamesText(n - 1) + " or .name == $var" + Digits(n - 1)
  }

  lemma TestsSnoc(n: nat)
    ensures Map(NameTest, Vars(n + 1)) == Map(NameTest, Vars(n)) + [NameTest(Var(n))]
  {
    assert Vars(n + 1) == Vars(n) + [Var(n)];
  }

  lemma TestText(text: string, digits: string)
    ensures text + " or " + (".name == " + ("$var" + digits)) == text + " or .name == $var" + digits
  {
  }

  lemma FirstTest()
    ensures AnyName(Vars(1)) == ".name == $var0"
  {
    assert Digits(0) == ['0'] && Vars(1) == [Var(0)];
    assert Map(NameTest, Vars(1)) == [NameTest(Var(0))];
    assert ".name == " + ("$var" + ['0']) == ".name == $var0";
  }

  lemma {:induction false} AnyNameText(n: nat)
    requires n > 0
    ensures AnyName(Vars(n)) == NamesText(n)
  {
    if n == 1 {
      FirstTest();
    } else {
      AnyNameText(n - 1);
      TestsSnoc(n - 1);
      JoinSnoc(Map(NameTest, Vars(n - 1)), NameTest(Var(n - 1)), " or ");
      TestText(NamesText(n - 1), Digits(n - 1));
    }
  }

  /** The program and the variables of a rule. */
  lemma FilterRuleText(names: string, exclude: bool)
    ensures FilterRule(names, true, exclude).jq == ".name | test($var)" + if exclude then " | not" else ""
    ensures FilterRule(names, true, exclude).variables == [("$var", names)]
    ensures var rule, values := FilterRule(names, false, exclude), Names(names);
            && rule.jq == NamesText(|values|) + (if exclude then " | not" else "")
            && |rule.variables| == |values|
            && forall i :: 0 <= i < |values| ==> rule.variables[i] == ("$var" + Digits(i), values[i])
  {
    AnyNameText(|Names(names)|);
    assert NamesText(|Names(names)|) + "" == NamesText(|Names(names)|);
  }

  predicate Includes(s: string, part: string) {
    exists i :: 0 <= i <= |s| && part <= s[i..]
  }

  datatype Params = Params(names: string, regex: bool, exclude: bool)

  function Second(pair: (string, string)): string {
    pair.1
  }

  function ToParams(rule: Rule): Params {
    Params(Join(Map(Second, rule.variables), ", "), Includes(rule.jq, "| test"), Includes(rule.jq, "| not"))
  }

  // ----- The flags come back -----

  ghost predicate PlainVars(vars: seq<string>) {
    forall v :: v in vars ==> IsVar(v) && ' ' !in v && '|' !in v
  }

  lemma VarsArePlain(n: nat)
    ensures PlainVars(Vars(n))
  {
    forall v | v in Vars(n) ensures IsVar(v) && ' ' !in v && '|' !in v {
      var i :| 0 <= i < n && Vars(n)[i] == v;
      assert ' ' !in Digits(i) && '|' !in Digits(i);
    }
  }

  lemma {:induction false} TestsHaveNoBar(vars: seq<string>)
    requires PlainVars(vars)
    ensures '|' !in AnyName(vars)
  {
    forall t | t in Map(NameTest, vars) ensures '|' !in t {
      var i :| 0 <= i < |vars| && Map(NameTest, vars)[i] == t;
      assert vars[i] in vars;
    }
    JoinAvoids(Map(NameTest, vars), " or ", '|');
  }

  /** A text with one bar includes a part that starts with a bar only there. */
  lemma IncludesAtBar(body: string, rest: string, part: string)
    requires '|' !in body && '|' !in rest && part != "" && part[0] == '|'
    ensures Includes(body + ['|'] + rest, part) <==> part <= ['|'] + rest
    ensures !Includes(body, part)
  {
    var s := body + ['|'] + rest;
    assert s[|body|..] == ['|'] + rest;
    forall i | 0 <= i <= |s| && part <= s[i..] ensures i == |body| {
      assert s[i..][0] == part[0] && s[i] == '|';
    }
  }

  lemma FlagsOfNotBody(body: string)
    requires '|' !in body
    ensures !Includes(body + NOT_JQ, "| test") && Includes(body + NOT_JQ, "| not")
  {
    assert body + NOT_JQ == (body + " ") + ['|'] + " not";
    IncludesAtBar(body + " ", " not", "| test");
    IncludesAtBar(body + " ", " not", "| not");
    assert ['|'] + " not" == "| not" && "| not"[2] != "| test"[2];
  }

  lemma FlagsOfNames(names: string, exclude: bool)
    ensures !Includes(FilterRule(names, false, exclude).jq, "| test")
    ensures Includes(FilterRule(names, false, exclude).jq, "| not") <==> exclude
  {
    var body := AnyName(Vars(|Names(names)|));
    VarsArePlain(|Names(names)|);
    TestsHaveNoBar(Vars(|Names(names)|));
    if exclude {
      FlagsOfNotBody(body);
    } else {
      IncludesAtBar(body, "", "| test");
      IncludesAtBar(body, "", "| not");
    }
  }

  lemma FlagsOfPattern(names: string, exclude: bool)
    ensures Includes(FilterRule(names, true, exclude).jq, "| test")
    ensures Includes(FilterRule(names, true, exclude).jq, "| not") <==> exclude
  {
    var jq := FilterRule(names, true, exclude).jq;
    if exclude {
      assert "| test" <= jq[6..] && "| not" <= jq[19..];
    } else {
      assert jq == ".name " + ['|'] + " test($var)";
      IncludesAtBar(".name ", " test($var)", "| test");
      IncludesAtBar(".name ", " test($var)", "| not");
      assert (['|'] + " test($var)")[2] != "| not"[2];
    }
  }

  // ----- The names come back -----

  lemma {:induction false} TrimStartKeeps(s: string)
    requires s == "" || !IsSpace(s[0])
    ensures TrimStart(s) == s
  {
  }

  lemma TrimTwice(s: string)
    ensures Trim(Trim(s)) == Trim(s)
    ensures Trim(" " + Trim(s)) == Trim(s)
  {
    var t := Trim(s);
    assert t == "" || t[0] == TrimStart(s)[0];
    TrimStartKeeps(t);
    assert (" " + t)[1..] == t;
    assert TrimEnd(t) == t;
  }

  lemma {:induction false} TrimAvoids(s: string, c: char)
    requires c !in s
    ensures c !in TrimStart(s) && c !in TrimEnd(s)
    decreases |s|
  {
    if s != "" {
      TrimAvoids(s[1..], c);
      TrimAvoids(s[..|s| - 1], c);
    }
  }

  lemma NamesAreTrimmed(names: string, i: nat)
    requires i < |Names(names)|
    ensures var n := Names(names)[i]; ',' !in n && Trim(n) == n && Trim(" " + n) == n
  {
    var part := Split(names, ',')[i];
    assert part in Split(names, ',');
    TrimTwice(part);
    TrimAvoids(part, ',');
    TrimAvoids(TrimStart(part), ',');
  }

  ghost predicate Trimmed(values: seq<string>) {
    forall v :: v in values ==> ',' !in v && Trim(v) == v && Trim(" " + v) == v
  }

  lemma {:induction false} SplitNames(values: seq<string>)
    requires Trimmed(values) && values != []
    ensures Map(Trim, Split(Join(values, ", "), ',')) == values
  {
    if |values| == 1 {
      SplitPlain(values[0], ',');
    } else {
      var rest := Join(values[1..], ", ");
      SplitNames(values[1..]);
      SpaceInFront(rest, values[1..]);
      FirstName(values[0], " " + rest);
      assert Join(values, ", ") == values[0] + [','] + (" " + rest);
    }
  }

  lemma FirstName(name: string, rest: string)
    requires ',' !in name && Trim(name) == name
    ensures Map(Trim, Split(name + [','] + rest, ',')) == [name] + Map(Trim, Split(rest, ','))
  {
    SplitAt(name, ',', rest);
  }

  lemma TrimSpace(x: string)
    ensures Trim(" " + x) == Trim(x)
  {
    assert (" " + x)[1..] == x;
  }

  // A space in front changes the first part only, and trimming takes it off again.
  lemma SpaceInFront(rest: string, values: seq<string>)
    requires Map(Trim, Split(rest, ',')) == values
    ensures Map(Trim, Split(" " + rest, ',')) == values
  {
    var parts := Split(rest, ',');
    assert (" " + rest)[1..] == rest;
    assert Split(" " + rest, ',') == [" " + parts[0]] + parts[1..] by {
      assert Push(' ', ',', parts) == [[' '] + parts[0]] + parts[1..];
    }
    TrimSpace(parts[0]);
    TrimFirst(parts, " " + parts[0]);
  }

  lemma TrimFirst(parts: seq<string>, first: string)
    requires parts != [] && Trim(first) == Trim(parts[0])
    ensures Map(Trim, [first] + parts[1..]) == Map(Trim, parts)
  {
  }

  /** Reading any rule the dashboard wrote gives the flags back, and writing what was read gives the same rule. */
  lemma RuleRoundTrip(names: string, regex: bool, exclude: bool)
    ensures var params := ToParams(FilterRule(names, regex, exclude));
            && params.regex == regex && params.exclude == exclude
            && (regex ==> params.names == names)
            && FilterRule(params.names, params.regex, params.exclude) == FilterRule(names, regex, exclude)
  {
    var rule := FilterRule(names, regex, exclude);
    if regex {
      FlagsOfPattern(names, exclude);
      assert Map(Second, rule.variables) == [names];
    } else {
      FlagsOfNames(names, exclude);
      var values := Names(names);
      assert Map(Second, rule.variables) == values;
      forall v | v in values ensures ',' !in v && Trim(v) == v && Trim(" " + v) == v {
        var i :| 0 <= i < |values| && values[i] == v;
        NamesAreTrimmed(names, i);
      }
      SplitNames(values);
    }
  }

  // ----- The syncer: a reader for the programs the dashboard writes -----

  datatype Stage = NameIn(vars: seq<string>) | NameField | TestVar(v: string) | Negate

  function Tokens(text: string): seq<string> {
    FlatMap(NonEmpty, Split(text, ' '))
  }

  predicate IsVar(token: string) {
    |token| > 1 && token[0] == '$'
  }

  // .name == $v or .name == $w ...
  function ReadTests(tokens: seq<string>): Option<seq<string>> {
    if |tokens| < 3 || tokens[0] != ".name" || tokens[1] != "==" || !IsVar(tokens[2]) then None
    else if |tokens| == 3 then Some([tokens[2]])
    else if tokens[3] != "or" then None
    else
      var rest := ReadTests(tokens[4..]);
      if rest.None? then None else Some([tokens[2]] + rest.value)
  }

  function ReadStage(text: string): Option<Stage> {
    var tokens := Tokens(text);
    if tokens == ["not"] then Some(Negate)
    else if tokens == [".name"] then Some(NameField)
    else if |tokens| == 1 && |tokens[0]| > 7 && tokens[0][..5] == "test(" && tokens[0][|tokens[0]| - 1] == ')'
            && IsVar(tokens[0][5..|tokens[0]| - 1]) then
      Some(TestVar(tokens[0][5..|tokens[0]| - 1]))
    else
      var tests := ReadTests(tokens);
      if tests.None? then None else Some(NameIn(tests.value))
  }

  function ReadStages(texts: seq<string>): Option<seq<Stage>> {
    if texts == [] then Some([])
    else
      var first, rest := ReadStage(texts[0]), ReadStages(texts[1..]);
      if first.None? || rest.None? then None else Some([first.value] + rest.value)
  }

  /** gojq.Parse; a pipe binds weakest. */
  function Parse(jq: string): Option<seq<Stage>> {
    ReadStages(Split(jq, '|'))
  }

  datatype Value = Object(name: string) | Text(s: string) | Truth(b: bool)

  /** What a stage makes of a value; `matches` is the regular expression library, None an error. */
  function Apply(matches: (string, string) -> Option<bool>, vars: map<string, string>, stage: Stage,
                 v: Value): Option<Value> {
    match stage
    case NameField => if v.Object? then Some(Text(v.name)) else None
    case NameIn(names) =>
      if v.Object? && forall x :: x in names ==> x in vars then
        Some(Truth(exists x :: x in names && vars[x] == v.name))
      else None
    case TestVar(x) =>
      if v.Text? && x in vars && matches(v.s, vars[x]).Some? then Some(Truth(matches(v.s, vars[x]).value)) else None
    case Negate => Some(Truth(v.Truth? && !v.b))
  }

  function RunStages(matches: (string, string) -> Option<bool>, vars: map<string, string>, stages: seq<Stage>, v: Value)
    : Option<Value>
  {
    if stages == [] then Some(v)
    else
      var next := Apply(matches, vars, stages[0], v);
      if next.None? then None else RunStages(matches, vars, stages[1..], next.value)
  }

  predicate UsesOnly(stages: seq<Stage>, vars: set<string>) {
    forall s :: s in stages ==> (s.NameIn? ==> forall x :: x in s.vars ==> x in vars) && (s.TestVar? ==> s.v in vars)
  }

  // ----- What the syncer does with a rule -----

  /** A rule as the syncer gets it. */
  datatype Spec = Spec(jq: string, variables: map<string, string>)

  /** Whether a chart is kept; None when the program fails or does not end in a boolean. */
  function Satisfies(matches: (string, string) -> Option<bool>, vars: map<string, string>, stages: seq<Stage>, c: Chart)
    : Option<bool>
  {
    match RunStages(matches, vars, stages, Object(c.name))
    case Some(Truth(b)) => Some(b)
    case _ => None
  }

  function Keep(matches: (string, string) -> Option<bool>, vars: map<string, string>, stages: seq<Stage>)
    : Chart -> seq<Chart>
  {
    c => if Satisfies(matches, vars, stages, c) == Some(true) then [c] else []
  }

  function Filtered(matches: (string, string) -> Option<bool>, charts: seq<Chart>, rule: Option<Spec>)
    : Option<seq<Chart>>
  {
    if rule.None? || rule.value.jq == "" then Some(charts)
    else
      var stages, vars := Parse(rule.value.jq), rule.value.variables;
      if stages.None? || !UsesOnly(stages.value, vars.Keys)
         || exists c :: c in charts && Satisfies(matches, vars, stages.value, c).None? then None
      else Some(FlatMap(Keep(matches, vars, stages.value), charts))
  }

  /** The rule's verdict on one chart. */
  predicate KeptBy(matches: (string, string) -> Option<bool>, rule: Option<Spec>, c: Chart) {
    rule.None? || rule.value.jq == "" ||
    (Parse(rule.value.jq).Some? &&
     Satisfies(matches, rule.value.variables, Parse(rule.value.jq).value, c) == Some(true))
  }

  function KeptCharts(matches: (string, string) -> Option<bool>, rule: Option<Spec>): Chart -> seq<Chart> {
    (c: Chart) => if KeptBy(matches, rule, c) then [c] else []
  }

  lemma {:induction false} KeepAll(s: seq<Chart>, keep: Chart -> seq<Chart>)
    requires forall c :: c in s ==> keep(c) == [c]
    ensures FlatMap(keep, s) == s
  {
    if s != [] {
      KeepAll(s[1..], keep);
      assert s == [s[0]] + s[1..];
    }
  }

  /** A filter that succeeds keeps the charts one by one. */
  lemma FilteredOneByOne(matches: (string, string) -> Option<bool>, charts: seq<Chart>, rule: Option<Spec>)
    requires Filtered(matches, charts, rule).Some?
    ensures Filtered(matches, charts, rule).value == FlatMap(KeptCharts(matches, rule), charts)
  {
    if rule.None? || rule.value.jq == "" {
      KeepAll(charts, KeptCharts(matches, rule));
    } else {
      FlatMapSame(Keep(matches, rule.value.variables, Parse(rule.value.jq).value), KeptCharts(matches, rule), charts);
    }
  }

  // The values given by position, as the compiled code looks them up.
  function Bound(names: seq<string>, values: seq<string>): map<string, string>
    requires |names| == |values|
  {
    if names == [] then map[]
    else Bound(names[..|names| - 1], values[..|values| - 1])[names[|names| - 1] := values[|values| - 1]]
  }

  lemma BoundOneMore(variables: map<string, string>, order: seq<string>, i: nat, names: seq<string>,
                     values: seq<string>)
    requires i < |order| && (forall v :: v in order ==> v in variables) && names == order[..i] && |values| == i
    requires Bound(names, values) == map v | v in order[..i] :: variables[v]
    ensures names + [order[i]] == order[..i + 1]
    ensures Bound(names + [order[i]], values + [variables[order[i]]]) == map v | v in order[..i + 1] :: variables[v]
  {
    assert order[..i + 1] == order[..i] + [order[i]];
    var longer, more := names + [order[i]], values + [variables[order[i]]];
    assert longer[..i] == names && more[..i] == values;
  }

  /** Whatever order Go ranges over the variables in, the code sees the same binding. */
  method CompileJQ(rule: Spec, order: seq<string>)
      returns (code: Option<seq<Stage>>, names: seq<string>, values: seq<string>)
    requires forall v :: v in order <==> v in rule.variables
    ensures |names| == |values| && Bound(names, values) == rule.variables
    ensures code == if Parse(rule.jq).None? || !UsesOnly(Parse(rule.jq).value, rule.variables.Keys) then None
                    else Parse(rule.jq)
  {
    var query := Parse(rule.jq);
    names, values := [], [];
    for i := 0 to |order|
      invariant names == order[..i] && |values| == i
      invariant Bound(names, values) == map v | v in order[..i] :: rule.variables[v]
    {
      BoundOneMore(rule.variables, order, i, names, values);
      names := names + [order[i]];
      values := values + [rule.variables[order[i]]];
    }
    assert order[..|order|] == order;
    assert (set v | v in names) == rule.variables.Keys;
    code := if query.None? || !UsesOnly(query.value, set v | v in names) then None else query;
  }

  method FilterCharts(matches: (string, string) -> Option<bool>, charts: seq<Chart>, rule: Option<Spec>,
                      order: seq<string>)
      returns (result: Option<seq<Chart>>)
    requires rule.Some? ==> forall v :: v in order <==> v in rule.value.variables
    ensures result == Filtered(matches, charts, rule)
  {
    if rule.None? || rule.value.jq == "" {
      return Some(charts);
    }
    var jqCode, names, values := CompileJQ(rule.value, order);
    if jqCode.None? {
      return None;
    }
    var vars := Bound(names, values);
    var kept := [];
    for i := 0 to |charts|
      invariant forall c :: c in charts[..i] ==> Satisfies(matches, vars, jqCode.value, c).Some?
      invariant kept == FlatMap(Keep(matches, vars, jqCode.value), charts[..i])
    {
      assert charts[..i + 1] == charts[..i] + [charts[i]];
      FlatMapSnoc(Keep(matches, vars, jqCode.value), charts[..i], charts[i]);
      var satisfied := Satisfies(matches, vars, jqCode.value, charts[i]);
      if satisfied.None? {
        assert charts[i] in charts;
        return None;
      }
      if satisfied.value {
        kept := kept + [charts[i]];
      }
    }
    assert charts[..|charts|] == charts;
    return Some(kept);
  }

  // ----- The program the dashboard prints is the one the syncer reads -----

  lemma TokensConcat(a: string, b: string)
    ensures Tokens(a + " " + b) == Tokens(a) + Tokens(b)
  {
    SplitConcat(a, ' ', b);
    FlatMapConcat(NonEmpty, Split(a, ' '), Split(b, ' '));
    assert a + " " + b == a + [' '] + b;
  }

  lemma OneToken(t: string)
    requires ' ' !in t && t != ""
    ensures Tokens(t) == [t]
  {
    SplitPlain(t, ' ');
    assert FlatMap(NonEmpty, [t]) == NonEmpty(t) + FlatMap(NonEmpty, [t][1..]);
  }

  lemma NoToken()
    ensures Tokens("") == []
  {
    assert FlatMap(NonEmpty, [""]) == NonEmpty("") + FlatMap(NonEmpty, [""][1..]);
  }

  lemma TokensBeforeVar()
    ensures Tokens(".name ==") == [".name", "=="]
  {
    OneToken(".name");
    OneToken("==");
    TokensConcat(".name", "==");
    assert ".name" + " " + "==" == ".name ==";
  }

  lemma TestWords(v: string, words: string)
    requires words == ".name =="
    ensures NameTest(v) == words + " " + v
  {
  }

  lemma TokensOfTest(v: string)
    requires v != "" && ' ' !in v
    ensures Tokens(NameTest(v)) == [".name", "==", v]
  {
    TokensBeforeVar();
    OneToken(v);
    TokensConcat(".name ==", v);
    TestWords(v, ".name ==");
  }

  lemma TokensStep(v: string, rest: string)
    requires v != "" && ' ' !in v
    ensures Tokens(NameTest(v) + " or " + rest) == [".name", "==", v, "or"] + Tokens(rest)
  {
    TokensOfTest(v);
    OneToken("or");
    TokensConcat(NameTest(v), "or");
    TokensConcat(NameTest(v) + " " + "or", rest);
    assert NameTest(v) + " or " + rest == (NameTest(v) + " " + "or") + " " + rest;
  }

  function TestTokens(vars: seq<string>): seq<string>
    requires vars != []
  {
    if |vars| == 1 then [".name", "==", vars[0]] else [".name", "==", vars[0], "or"] + TestTokens(vars[1..])
  }

  lemma {:induction false} TokensOfTests(vars: seq<string>)
    requires vars != [] && PlainVars(vars)
    ensures Tokens(AnyName(vars)) == TestTokens(vars)
  {
    var v, more := vars[0], vars[1..];
    assert v in vars;
    if |vars| == 1 {
      TokensOfTest(v);
    } else {
      TokensOfTests(more);
      TokensStep(v, AnyName(more));
      JoinCons(NameTest(v), Map(NameTest, more), " or ");
      assert Map(NameTest, vars) == [NameTest(v)] + Map(NameTest, more);
    }
  }

  lemma {:induction false} ReadTestTokens(vars: seq<string>)
    requires vars != [] && PlainVars(vars)
    ensures ReadTests(TestTokens(vars)) == Some(vars)
    ensures |TestTokens(vars)| >= 3
  {
    assert vars[0] in vars;
    if |vars| > 1 {
      ReadTestTokens(vars[1..]);
      assert TestTokens(vars)[4..] == TestTokens(vars[1..]);
      assert [vars[0]] + vars[1..] == vars;
    } else {
      assert [vars[0]] == vars;
    }
  }

  lemma ReadStageBack(vars: seq<string>)
    requires vars != [] && PlainVars(vars)
    ensures ReadStage(AnyName(vars)) == Some(NameIn(vars))
    ensures ReadStage(AnyName(vars) + " ") == Some(NameIn(vars))
  {
    var body := AnyName(vars);
    TokensOfTests(vars);
    ReadTestTokens(vars);
    TokensConcat(body, "");
    NoToken();
    assert body + " " + "" == body + " ";
    assert Tokens(body) + [] == Tokens(body);
  }

  lemma ReadNot()
    ensures ReadStage(" not") == Some(Negate)
  {
    TokensConcat("", "not");
    NoToken();
    OneToken("not");
    assert "" + " " + "not" == " not";
  }

  lemma TwoStages(a: string, b: string)
    requires ReadStage(a).Some? && ReadStage(b).Some?
    ensures ReadStages([a, b]) == Some([ReadStage(a).value, ReadStage(b).value])
  {
    assert [a, b][1..] == [b];
    OneStage(b);
    assert ReadStages([a, b]).value == [ReadStage(a).value, ReadStage(b).value];
  }

  lemma OneStage(a: string)
    ensures ReadStages([a]) == if ReadStage(a).None? then None else Some([ReadStage(a).value])
  {
    assert [a][1..] == [] && ReadStages([]) == Some([]);
    if ReadStage(a).Some? {
      assert ReadStages([a]).value == [ReadStage(a).value];
    }
  }

  lemma SplitNot(body: string)
    requires '|' !in body
    ensures Split(body + NOT_JQ, '|') == [body + " ", " not"]
  {
    assert body + NOT_JQ == (body + " ") + ['|'] + " not";
    SplitAt(body + " ", '|', " not");
    SplitPlain(" not", '|');
  }

  lemma ParseWithNot(body: string, stage: Stage)
    requires '|' !in body && ReadStage(body + " ") == Some(stage)
    ensures Parse(body + NOT_JQ) == Some([stage, Negate])
  {
    SplitNot(body);
    ReadNot();
    TwoStages(body + " ", " not");
  }

  lemma ParseAnyName(vars: seq<string>)
    requires vars != [] && PlainVars(vars)
    ensures Parse(AnyName(vars)) == Some([NameIn(vars)])
    ensures Parse(AnyName(vars) + NOT_JQ) == Some([NameIn(vars), Negate])
  {
    TestsHaveNoBar(vars);
    ReadStageBack(vars);
    SplitPlain(AnyName(vars), '|');
    OneStage(AnyName(vars));
    ParseWithNot(AnyName(vars), NameIn(vars));
  }

  // ----- What a rule keeps -----

  function First(pair: (string, string)): string {
    pair.0
  }

  /** The variables as a map, the way they reach the syncer. */
  function ToSpec(rule: Rule): Spec {
    Spec(rule.jq, Bound(Map(First, rule.variables), Map(Second, rule.variables)))
  }

  lemma {:induction false} BoundAt(names: seq<string>, values: seq<string>, i: nat)
    requires |names| == |values| && Distinct(names) && i < |names|
    ensures names[i] in Bound(names, values) && Bound(names, values)[names[i]] == values[i]
  {
    if i < |names| - 1 {
      BoundAt(names[..|names| - 1], values[..|values| - 1], i);
    }
  }

  lemma {:induction false} BoundKeys(names: seq<string>, values: seq<string>, v: string)
    requires |names| == |values| && v in Bound(names, values)
    ensures v in names
  {
    if v != names[|names| - 1] {
      BoundKeys(names[..|names| - 1], values[..|values| - 1], v);
    }
  }

  lemma VarsDistinct(n: nat)
    ensures Distinct(Vars(n))
  {
    forall i, j | 0 <= i < j < n ensures Var(i) != Var(j) {
      ValueOfDigits(i);
      ValueOfDigits(j);
      assert Var(i)[4..] == Digits(i) && Var(j)[4..] == Digits(j);
    }
  }

  lemma RunNames(matches: (string, string) -> Option<bool>, vars: map<string, string>, names: seq<string>,
                 exclude: bool, c: Chart)
    requires forall v :: v in names ==> v in vars
    ensures Satisfies(matches, vars, [NameIn(names)] + if exclude then [Negate] else [], c)
            == Some((exists v :: v in names && vars[v] == c.name) != exclude)
  {
    var found := exists v :: v in names && vars[v] == c.name;
    assert Apply(matches, vars, NameIn(names), Object(c.name)) == Some(Truth(found));
    if exclude {
      assert [NameIn(names), Negate][1..] == [Negate] && [Negate][1..] == [];
      assert RunStages(matches, vars, [Negate], Truth(found)) == Some(Truth(!found));
      assert [NameIn(names)] + [Negate] == [NameIn(names), Negate];
    } else {
      assert [NameIn(names)][1..] == [];
      assert RunStages(matches, vars, [NameIn(names)][1..], Truth(found)) == Some(Truth(found));
      assert [NameIn(names)] + [] == [NameIn(names)];
    }
  }

  /** A chart is wanted when its name is listed, or not, if the list excludes. */
  function Wanted(names: seq<string>, exclude: bool): Chart -> seq<Chart> {
    (c: Chart) => if (c.name in names) != exclude then [c] else []
  }

  lemma BoundValues(vars: seq<string>, values: seq<string>, x: string)
    requires |vars| == |values| && Distinct(vars)
    ensures (exists v :: v in vars && v in Bound(vars, values) && Bound(vars, values)[v] == x) <==> x in values
  {
    if x in values {
      var i :| 0 <= i < |values| && values[i] == x;
      BoundAt(vars, values, i);
      assert vars[i] in vars;
    }
    if v :| v in vars && v in Bound(vars, values) && Bound(vars, values)[v] == x {
      var i :| 0 <= i < |vars| && vars[i] == v;
      BoundAt(vars, values, i);
    }
  }

  lemma BoundVars(vars: seq<string>, values: seq<string>, v: string)
    requires |vars| == |values| && Distinct(vars)
    ensures v in vars <==> v in Bound(vars, values)
  {
    if v in vars {
      var i :| 0 <= i < |vars| && vars[i] == v;
      BoundAt(vars, values, i);
    }
    if v in Bound(vars, values) {
      BoundKeys(vars, values, v);
    }
  }

  lemma VarsBound(vars: seq<string>, values: seq<string>)
    requires |vars| == |values| && Distinct(vars)
    ensures forall v :: v in vars <==> v in Bound(vars, values)
    ensures forall x :: (exists v :: v in vars && v in Bound(vars, values) && Bound(vars, values)[v] == x) <==>
      x in values
  {
    forall v ensures v in vars <==> v in Bound(vars, values) {
      BoundVars(vars, values, v);
    }
    forall x
      ensures (exists v :: v in vars && v in Bound(vars, values) && Bound(vars, values)[v] == x) <==> x in values
    {
      BoundValues(vars, values, x);
    }
  }

  lemma NamesRuleParses(names: string, exclude: bool)
    ensures FilterRule(names, false, exclude).jq != ""
    ensures Parse(FilterRule(names, false, exclude).jq)
            == Some([NameIn(Vars(|Names(names)|))] + if exclude then [Negate] else [])
  {
    var vars := Vars(|Names(names)|);
    VarsArePlain(|Names(names)|);
    ParseAnyName(vars);
    NoStage();
    assert [NameIn(vars)] + [] == [NameIn(vars)] && [NameIn(vars)] + [Negate] == [NameIn(vars), Negate];
  }

  lemma NamesRuleBinds(names: string, exclude: bool)
    ensures ToSpec(FilterRule(names, false, exclude)).variables == Bound(Vars(|Names(names)|), Names(names))
  {
    var rule := FilterRule(names, false, exclude);
    assert Map(First, rule.variables) == Vars(|Names(names)|) && Map(Second, rule.variables) == Names(names);
  }

  lemma NoStage()
    ensures Parse("").None?
  {
    NoToken();
    OneStage("");
  }

  lemma FilteredBy(matches: (string, string) -> Option<bool>, charts: seq<Chart>, spec: Spec, stages: seq<Stage>)
    requires spec.jq != "" && Parse(spec.jq) == Some(stages) && UsesOnly(stages, spec.variables.Keys)
    ensures Filtered(matches, charts, Some(spec)) ==
            if exists c :: c in charts && Satisfies(matches, spec.variables, stages, c).None? then None
            else Some(FlatMap(Keep(matches, spec.variables, stages), charts))
  {
  }

  /** A rule made from a list of names keeps exactly the charts with one of the trimmed names, or exactly the others, in
      order. */
  lemma NamesRuleKeeps(matches: (string, string) -> Option<bool>, charts: seq<Chart>, names: string, exclude: bool)
    ensures Filtered(matches, charts, Some(ToSpec(FilterRule(names, false, exclude))))
            == Some(FlatMap(Wanted(Names(names), exclude), charts))
  {
    var spec := ToSpec(FilterRule(names, false, exclude));
    var vars := Vars(|Names(names)|);
    NamesRuleBinds(names, exclude);
    NamesRuleParses(names, exclude);
    VarsDistinct(|Names(names)|);
    VarsBound(vars, Names(names));
    var stages := Parse(spec.jq).value;
    forall c: Chart ensures Satisfies(matches, spec.variables, stages, c) == Some((c.name in Names(names)) != exclude) {
      RunNames(matches, spec.variables, vars, exclude, c);
      assert (exists v :: v in vars && spec.variables[v] == c.name) <==> c.name in Names(names);
    }
    FilteredBy(matches, charts, spec, stages);
    FlatMapSame(Keep(matches, spec.variables, stages), Wanted(Names(names), exclude), charts);
  }

  /** A list of names that keeps becomes one that excludes: every verdict turns round. */
  lemma NamesRuleVerdict(matches: (string, string) -> Option<bool>, names: string, exclude: bool, c: Chart)
    ensures KeptBy(matches, Some(ToSpec(FilterRule(names, false, exclude))), c) <==> (c.name in Names(names)) != exclude
  {
    NamesRuleParses(names, exclude);
    NamesRuleKeeps(matches, [c], names, exclude);
    FilteredOneByOne(matches, [c], Some(ToSpec(FilterRule(names, false, exclude))));
    var kept := KeptCharts(matches, Some(ToSpec(FilterRule(names, false, exclude))));
    assert FlatMap(kept, [c]) == kept(c) + FlatMap(kept, [c][1..]);
    assert FlatMap(Wanted(Names(names), exclude), [c])
      == Wanted(Names(names), exclude)(c) + FlatMap(Wanted(Names(names), exclude), [c][1..]);
  }

  /** A program that names a variable the rule does not bind does not compile, whatever the charts are. */
  lemma UnboundVariableFails(matches: (string, string) -> Option<bool>, charts: seq<Chart>, n: nat,
                             variables: map<string, string>, i: nat)
    requires i < n && "$var" + Digits(i) !in variables
    ensures Filtered(matches, charts, Some(Spec(NamesText(n), variables))).None?
  {
    AnyNameText(n);
    VarsArePlain(n);
    ParseAnyName(Vars(n));
    var stage := NameIn(Vars(n));
    assert stage in [stage] && Vars(n)[i] in Vars(n);
    if NamesText(n) == "" {
      NoStage();
    }
  }

  // ----- Patterns -----

  lemma TokenPadded(t: string)
    requires ' ' !in t && t != ""
    ensures Tokens(t + " ") == [t] && Tokens(" " + t) == [t] && Tokens(" " + t + " ") == [t]
  {
    OneToken(t);
    NoToken();
    TokensConcat(t, "");
    TokensConcat("", t);
    TokensConcat("" + " " + t, "");
    assert t + " " + "" == t + " " && "" + " " + t == " " + t && (" " + t) + " " + "" == " " + t + " ";
  }

  lemma ReadNameField(text: string)
    requires text == ".name "
    ensures ReadStage(text) == Some(NameField) && '|' !in text
  {
    var t := ".name";
    TokenPadded(t);
    assert t + " " == text;
    assert |t| != |"not"|;
  }

  lemma ReadTestVar(text: string)
    requires Tokens(text) == ["test($var)"]
    ensures ReadStage(text) == Some(TestVar("$var"))
  {
    var test := "test($var)";
    assert |test| != |"not"| && |test| != |".name"|;
    assert test[..5] == "test(" && test[5..|test| - 1] == "$var";
  }

  lemma ReadTest(text: string)
    requires text == " test($var)" || text == " test($var) "
    ensures ReadStage(text) == Some(TestVar("$var")) && '|' !in text
  {
    var t := "test($var)";
    TokenPadded(t);
    assert text == " " + t || text == " " + t + " ";
    ReadTestVar(text);
  }

  lemma ReadNegate(text: string)
    requires text == " not"
    ensures ReadStage(text) == Some(Negate) && '|' !in text
  {
    ReadNot();
  }

  lemma SplitThree(a: string, b: string, c: string)
    requires '|' !in a && '|' !in b && '|' !in c
    ensures Split(a + ['|'] + b, '|') == [a, b]
    ensures Split(a + ['|'] + (b + ['|'] + c), '|') == [a, b, c]
  {
    SplitPlain(b, '|');
    SplitPlain(c, '|');
    SplitAt(a, '|', b);
    SplitAt(b, '|', c);
    SplitAt(a, '|', b + ['|'] + c);
  }

  lemma ThreeStages(a: string, b: string, c: string)
    requires ReadStage(a).Some? && ReadStage(b).Some? && ReadStage(c).Some?
    ensures ReadStages([a, b, c]) == Some([ReadStage(a).value, ReadStage(b).value, ReadStage(c).value])
  {
    TwoStages(b, c);
    assert [a, b, c][1..] == [b, c];
    assert ReadStages([a, b, c]).value == [ReadStage(a).value, ReadStage(b).value, ReadStage(c).value];
  }

  lemma ParseStages(a: string, b: string, c: string)
    requires '|' !in a && '|' !in b && '|' !in c
    requires ReadStage(a).Some? && ReadStage(b).Some?
    ensures Parse(a + ['|'] + b) == Some([ReadStage(a).value, ReadStage(b).value])
    ensures ReadStage(c).Some? ==>
      Parse(a + ['|'] + (b + ['|'] + c)) == Some([ReadStage(a).value, ReadStage(b).value, ReadStage(c).value])
  {
    SplitThree(a, b, c);
    TwoStages(a, b);
    if ReadStage(c).Some? {
      ThreeStages(a, b, c);
    }
  }

  lemma ParsePattern(pattern: string, exclude: bool)
    ensures Parse(FilterRule(pattern, true, exclude).jq) == Some(PatternStages(exclude))
  {
    var name, test, negate := ".name ", if exclude then " test($var) " else " test($var)", " not";
    ReadNameField(name);
    ReadTest(test);
    ReadNegate(negate);
    ParseStages(name, test, negate);
    PatternText(pattern, exclude, name, test, negate);
  }

  lemma PatternText(pattern: string, exclude: bool, name: string, test: string, negate: string)
    requires name == ".name " && negate == " not" && test == if exclude then " test($var) " else " test($var)"
    ensures FilterRule(pattern, true, exclude).jq
            == if exclude then name + ['|'] + (test + ['|'] + negate) else name + ['|'] + test
  {
  }

  function PatternStages(exclude: bool): seq<Stage> {
    if exclude then [NameField, TestVar("$var"), Negate] else [NameField, TestVar("$var")]
  }

  lemma RunThreeStages(matches: (string, string) -> Option<bool>, vars: map<string, string>, a: Stage, b: Stage,
                       c: Stage, v: Value)
    ensures RunStages(matches, vars, [a, b], v) ==
            var x := Apply(matches, vars, a, v); if x.None? then None else Apply(matches, vars, b, x.value)
    ensures RunStages(matches, vars, [a, b, c], v) ==
            var y := RunStages(matches, vars, [a, b], v); if y.None? then None else Apply(matches, vars, c, y.value)
  {
    RunOneStage(matches, vars, b);
    RunOneStage(matches, vars, c);
    assert [a, b][1..] == [b] && [a, b, c][1..] == [b, c] && [b, c][1..] == [c];
    var x := Apply(matches, vars, a, v);
    if x.Some? {
      var y := Apply(matches, vars, b, x.value);
      assert RunStages(matches, vars, [b, c], x.value)
          == if y.None? then None else RunStages(matches, vars, [c], y.value);
    }
  }

  lemma RunOneStage(matches: (string, string) -> Option<bool>, vars: map<string, string>, a: Stage)
    ensures forall v :: RunStages(matches, vars, [a], v) == Apply(matches, vars, a, v)
  {
    assert [a][1..] == [];
    forall v ensures RunStages(matches, vars, [a], v) == Apply(matches, vars, a, v) {
      var x := Apply(matches, vars, a, v);
      if x.Some? {
        assert RunStages(matches, vars, [a][1..], x.value) == x;
      }
    }
  }

  lemma RunPattern(matches: (string, string) -> Option<bool>, vars: map<string, string>, exclude: bool, c: Chart)
    requires "$var" in vars
    ensures var found := matches(c.name, vars["$var"]);
            Satisfies(matches, vars, PatternStages(exclude), c)
            == if found.None? then None else Some(found.value != exclude)
  {
    RunThreeStages(matches, vars, NameField, TestVar("$var"), Negate, Object(c.name));
  }

  function Matching(matches: (string, string) -> Option<bool>, pattern: string, exclude: bool): Chart -> seq<Chart> {
    (c: Chart) => if matches(c.name, pattern) == Some(!exclude) then [c] else []
  }

  lemma BoundOne(v: string, x: string)
    ensures Bound([v], [x]) == map[v := x]
  {
    assert [v][..0] == [] && [x][..0] == [];
    assert Bound([v][..0], [x][..0]) == map[];
  }

  lemma PatternSpec(pattern: string, exclude: bool)
    ensures var spec := ToSpec(FilterRule(pattern, true, exclude));
            spec.jq != "" && spec.variables == map["$var" := pattern] && Parse(spec.jq) == Some(PatternStages(exclude))
  {
    var rule := FilterRule(pattern, true, exclude);
    ParsePattern(pattern, exclude);
    BoundOne("$var", pattern);
    assert Map(First, rule.variables) == ["$var"] && Map(Second, rule.variables) == [pattern];
  }

  lemma PatternCharts(matches: (string, string) -> Option<bool>, charts: seq<Chart>, pattern: string, exclude: bool)
    ensures var vars := map["$var" := pattern];
            && (forall c: Chart :: Satisfies(matches, vars, PatternStages(exclude), c).None? <==>
              matches(c.name, pattern).None?)
            && FlatMap(Keep(matches, vars, PatternStages(exclude)), charts)
               == FlatMap(Matching(matches, pattern, exclude), charts)
  {
    var vars := map["$var" := pattern];
    forall c: Chart
      ensures Satisfies(matches, vars, PatternStages(exclude), c) ==
              if matches(c.name, pattern).None? then None else Some(matches(c.name, pattern).value != exclude)
    {
      RunPattern(matches, vars, exclude, c);
    }
    FlatMapSame(Keep(matches, vars, PatternStages(exclude)), Matching(matches, pattern, exclude), charts);
  }

  lemma PatternSpecKeeps(matches: (string, string) -> Option<bool>, charts: seq<Chart>, spec: Spec, pattern: string,
                         exclude: bool)
    requires spec.jq != "" && spec.variables == map["$var" := pattern] && Parse(spec.jq) == Some(PatternStages(exclude))
    ensures Filtered(matches, charts, Some(spec))
            == if exists c :: c in charts && matches(c.name, pattern).None? then None
               else Some(FlatMap(Matching(matches, pattern, exclude), charts))
  {
    PatternCharts(matches, charts, pattern, exclude);
    assert "$var" in spec.variables.Keys;
    FilteredBy(matches, charts, spec, PatternStages(exclude));
  }

  /** A rule made from a pattern keeps exactly the charts whose name matches, or exactly the others, in order; it fails
      exactly when the pattern fails on some name. */
  lemma PatternRuleKeeps(matches: (string, string) -> Option<bool>, charts: seq<Chart>, pattern: string, exclude: bool)
    ensures Filtered(matches, charts, Some(ToSpec(FilterRule(pattern, true, exclude))))
            == if exists c :: c in charts && matches(c.name, pattern).None? then None
               else Some(FlatMap(Matching(matches, pattern, exclude), charts))
  {
    PatternSpec(pattern, exclude);
    PatternSpecKeeps(matches, charts, ToSpec(FilterRule(pattern, true, exclude)), pattern, exclude);
  }

  // ----- Variables in another order -----

  lemma ReorderedNames(names: string, exclude: bool, reordered: Rule)
    requires multiset(reordered.variables) == multiset(FilterRule(names, false, exclude).variables)
    ensures var again := Map(Second, reordered.variables);
            again != [] && Trimmed(again) && forall x :: x in again <==> x in Names(names)
  {
    var rule := FilterRule(names, false, exclude);
    var values, again := Names(names), Map(Second, reordered.variables);
    assert Map(Second, rule.variables) == values;
    MapPermuted(Second, reordered.variables, rule.variables);
    SameMembers(again, values);
    forall v | v in again ensures ',' !in v && Trim(v) == v && Trim(" " + v) == v {
      var i :| 0 <= i < |values| && values[i] == v;
      NamesAreTrimmed(names, i);
    }
  }

  /** A rule whose variables come back in another order reads as the same names in that order, so what is written again
      keeps the same charts. */
  lemma ReorderedRuleKeeps(matches: (string, string) -> Option<bool>, charts: seq<Chart>, names: string, exclude: bool,
                           reordered: Rule)
    requires var rule := FilterRule(names, false, exclude);
             reordered.jq == rule.jq && multiset(reordered.variables) == multiset(rule.variables)
    ensures var params := ToParams(reordered);
            && params.regex == false && params.exclude == exclude
            && Names(params.names) == Map(Second, reordered.variables)
            && Filtered(matches, charts, Some(ToSpec(FilterRule(params.names, params.regex, params.exclude))))
               == Filtered(matches, charts, Some(ToSpec(FilterRule(names, false, exclude))))
  {
    var values, again := Names(names), Map(Second, reordered.variables);
    FlagsOfNames(names, exclude);
    ReorderedNames(names, exclude, reordered);
    SplitNames(again);
    var params := ToParams(reordered);
    NamesRuleKeeps(matches, charts, names, exclude);
    NamesRuleKeeps(matches, charts, params.names, exclude);
    FlatMapSame(Wanted(again, exclude), Wanted(values, exclude), charts);
  }

  ghost predicate VarsSorted(n: nat) {
    forall i, j :: 0 <= i < j < n ==> LexLe(Vars(n)[i], Vars(n)[j])
  }

  lemma {:induction false} LexLeAfter(prefix: string, a: string, b: string)
    ensures LexLe(prefix + a, prefix + b) <==> LexLe(a, b)
  {
    if prefix == "" {
      assert prefix + a == a && prefix + b == b;
    } else {
      LexLeAfter(prefix[1..], a, b);
      assert (prefix + a)[1..] == prefix[1..] + a && (prefix + b)[1..] == prefix[1..] + b;
    }
  }

  lemma VarsSortedUpToTen(n: nat)
    ensures VarsSorted(n) <==> n <= 10
  {
    if n <= 10 {
      forall i, j | 0 <= i < j < n ensures LexLe(Vars(n)[i], Vars(n)[j]) {
        LexLeAfter("$var", Digits(i), Digits(j));
        assert Digits(i)[0] < Digits(j)[0];
      }
    } else {
      LexLeAfter("$var", Digits(2), Digits(10));
      assert Digits(10) == Digits(1) + ['0'] && Digits(10)[0] == '1' && Digits(2) == ['2'];
      assert !LexLe(Vars(n)[2], Vars(n)[10]);
    }
  }

  predicate KeyLe(a: (string, string), b: (string, string)) {
    LexLe(a.0, b.0)
  }

  lemma KeyLeIsTotal()
    ensures TotalPreorder(KeyLe)
  {
    forall a: (string, string), b: (string, string) ensures KeyLe(a, b) || KeyLe(b, a) {
      LexTotal(a.0, b.0);
    }
    forall a: (string, string), b: (string, string), c: (string, string) | KeyLe(a, b) && KeyLe(b, c)
      ensures KeyLe(a, c)
    {
      LexTransitive(a.0, b.0, c.0);
    }
  }

  lemma VariablesApart(values: seq<string>)
    ensures TiesLookAlike(KeyLe, (v: (string, string)) => v, Variables(values))
    ensures Sorted(KeyLe, Variables(values)) <==> VarsSorted(|values|)
  {
    var vs := Variables(values);
    VarsDistinct(|values|);
    assert forall i :: 0 <= i < |vs| ==> vs[i].0 == Vars(|values|)[i];
    forall x, y | x in vs && y in vs && Tied(KeyLe, x, y) ensures x == y {
      LexTotal(x.0, y.0);
      var i :| 0 <= i < |vs| && vs[i] == x;
      var j :| 0 <= j < |vs| && vs[j] == y;
      assert Vars(|values|)[i] == Vars(|values|)[j];
    }
    if VarsSorted(|values|) {
      forall i, j | 0 <= i < j < |vs| ensures KeyLe(vs[i], vs[j]) {
        assert LexLe(Vars(|values|)[i], Vars(|values|)[j]);
      }
    }
    if Sorted(KeyLe, vs) {
      forall i, j | 0 <= i < j < |values| ensures LexLe(Vars(|values|)[i], Vars(|values|)[j]) {
        assert KeyLe(vs[i], vs[j]);
      }
    }
  }

  /** The cluster keeps a rule's variables in a Go map and writes it sorted by key: what the dashboard gets back has the
      variables in the order it gave them exactly if there are no more than ten names. */
  lemma OrderSurvivesUpToTen(names: string, exclude: bool, stored: seq<(string, string)>)
    requires IsSorting(KeyLe, FilterRule(names, false, exclude).variables, stored)
    ensures stored == FilterRule(names, false, exclude).variables <==> |Names(names)| <= 10
  {
    var vs := FilterRule(names, false, exclude).variables;
    assert vs == Variables(Names(names));
    VariablesApart(Names(names));
    VarsSortedUpToTen(|Names(names)|);
    if |Names(names)| <= 10 {
      KeyLeIsTotal();
      OneAnswerIffTiesLookAlike(KeyLe, (v: (string, string)) => v, vs);
      assert IsSorting(KeyLe, vs, vs);
      assert Map((v: (string, string)) => v, vs) == vs && Map((v: (string, string)) => v, stored) == stored;
    }
  }
}
