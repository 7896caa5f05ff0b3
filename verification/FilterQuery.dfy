/** The catalogue's filters written into the URL and read back (dashboard/src/components/Catalog/Catalog.tsx, with the
    query parsed as qs does). */
module FilterQuery {
  import opened Wrappers
  import opened Sequences
  import opened Text
  import opened UriComponent

  const FILTER_NAMES: seq<string> := ["Search", "Type", "Repository", "Category", "Provider"]

  type Filters = map<string, seq<string>>

  // ----- A comma inside a value -----

  // f.replace(/,/g, "__")
  function Hide(f: string): string {
    if f == "" then "" else (if f[0] == ',' then "__" else [f[0]]) + Hide(f[1..])
  }

  // a.replace(/__/g, ",")
  function Restore(a: string): string {
    if a == "" then ""
    else if |a| >= 2 && a[0] == '_' && a[1] == '_' then "," + Restore(a[2..])
    else [a[0]] + Restore(a[1..])
  }

  /** No underscore is followed by another one or by a comma. */
  predicate Restorable(v: string) {
    forall i :: 0 <= i < |v| - 1 && v[i] == '_' ==> v[i + 1] != '_' && v[i + 1] != ','
  }

  lemma {:induction false} HideHidesComma(f: string)
    ensures ',' !in Hide(f)
  {
    if f != "" {
      HideHidesComma(f[1..]);
    }
  }

  lemma RestorableTail(v: string)
    requires v != ""
    ensures Restorable(v) <==>
            Restorable(v[1..]) && !(|v| > 1 && v[0] == '_' && (v[1] == '_' || v[1] == ','))
  {
    forall i | 0 < i < |v| ensures v[i] == v[1..][i - 1] {
    }
    if Restorable(v) {
      forall i | 0 <= i < |v[1..]| - 1 && v[1..][i] == '_' ensures v[1..][i + 1] != '_' && v[1..][i + 1] != ',' {
        assert v[i + 1] == '_' && v[i + 1 + 1] == v[1..][i + 1];
      }
    }
  }

  lemma RestoreComma(rest: string)
    ensures Restore("__" + rest) == "," + Restore(rest)
  {
    assert ("__" + rest)[2..] == rest;
  }

  lemma RestoreOther(c: char, rest: string)
    ensures !(c == '_' && rest != "" && rest[0] == '_') ==> Restore([c] + rest) == [c] + Restore(rest)
    ensures c == '_' && rest != "" && rest[0] == '_' ==> Restore([c] + rest)[0] == ','
  {
    var s := [c] + rest;
    assert s[1..] == rest && (rest != "" ==> s[1] == rest[0]);
  }

  /** A value comes back exactly when it is restorable. */
  lemma {:induction false} RestoreHideIff(v: string)
    ensures Restore(Hide(v)) == v <==> Restorable(v)
  {
    if v != "" {
      var c, more := v[0], v[1..];
      var rest := Hide(more);
      RestoreHideIff(more);
      RestorableTail(v);
      assert v == [c] + more;
      if c == ',' {
        RestoreComma(rest);
      } else {
        RestoreOther(c, rest);
        assert rest != "" ==> more != "" && rest[0] == if more[0] == ',' then '_' else more[0];
        assert more != "" ==> rest != "";
        assert ([c] + Restore(rest))[1..] == Restore(rest);
      }
    }
  }

  // ----- Writing -----

  function EncodeValue(f: string): string {
    Encode(Hide(f))
  }

  function ValueText(values: seq<string>): string {
    Join(Map(EncodeValue, values), ",")
  }

  function Part(filters: Filters): string -> string {
    filter => filter + "=" + ValueText(if filter in filters then filters[filter] else [])
  }

  function Active(filters: Filters): string -> seq<string> {
    filter => if filter in filters && filters[filter] != [] then [filter] else []
  }

  /** The query for the filters, whose keys come in the given order. */
  function FiltersToQuery(filters: Filters, order: seq<string>): string {
    var activeFilters := FlatMap(Active(filters), order);
    if activeFilters == [] then "" else "?" + Join(Map(Part(filters), activeFilters), "&")
  }

  // ----- Reading -----

  function PlusToSpace(t: string): string {
    Map(c => if c == '+' then ' ' else c, t)
  }

  // A malformed escape leaves the text as it is.
  function QsDecode(t: string): string {
    var decoded := Decode(PlusToSpace(t));
    if decoded.None? then PlusToSpace(t) else decoded.value
  }

  function ParsePart(part: string): (string, string) {
    var key := Split(part, '=')[0];
    (QsDecode(key), if |key| < |part| then QsDecode(part[|key| + 1..]) else "")
  }

  // A repeated key makes an array, which is printed with commas.
  function Collect(pairs: seq<(string, string)>): map<string, string> {
    if pairs == [] then map[]
    else
      var before, (key, value) := Collect(pairs[..|pairs| - 1]), pairs[|pairs| - 1];
      if key == "" then before else before[key := if key in before then before[key] + "," + value else value]
  }

  function ParseQuery(search: string): map<string, string> {
    var query := if search != "" && search[0] == '?' then search[1..] else search;
    if query == "" then map[] else Collect(Map(ParsePart, Split(query, '&')))
  }

  function ValuesOf(text: string): seq<string> {
    Map(Restore, Split(text, ','))
  }

  function InitialState(): Filters {
    map f | f in FILTER_NAMES :: []
  }

  function FiltersFrom(params: map<string, string>): Filters {
    InitialState() + map k | k in params :: ValuesOf(params[k])
  }

  ghost predicate IsFilter(k: string) {
    k in {"Search", "Type", "Repository", "Category", "Provider"}
  }

  lemma FilterNames()
    ensures forall k :: k in FILTER_NAMES <==> IsFilter(k)
  {
    assert FILTER_NAMES[0] == "Search" && FILTER_NAMES[1] == "Type" && FILTER_NAMES[2] == "Repository";
    assert FILTER_NAMES[3] == "Category" && FILTER_NAMES[4] == "Provider";
  }

  method InitialFilterState() returns (result: Filters)
    ensures result == InitialState()
    ensures result.Keys == {"Search", "Type", "Repository", "Category", "Provider"}
    ensures forall k :: k in result ==> result[k] == []
  {
    FilterNames();
    result := map[];
    for i := 0 to |FILTER_NAMES|
      invariant result == map f | f in FILTER_NAMES[..i] :: []
    {
      result := result[FILTER_NAMES[i] := []];
    }
  }

  /** The five filters and every parameter: what the parameter lists between commas, each with its commas back, and
      nothing for a filter that is no parameter. */
  ghost predicate AreRead(params: map<string, string>, filters: Filters) {
    && (forall k :: k in filters <==> IsFilter(k) || k in params)
    && (forall k :: k in filters && k !in params ==> filters[k] == [])
    && forall k :: k in params && k in filters ==>
         && |filters[k]| == |Split(params[k], ',')|
         && forall i :: 0 <= i < |filters[k]| ==> filters[k][i] == Restore(Split(params[k], ',')[i])
  }

  lemma ParametersAreRead(params: map<string, string>)
    ensures AreRead(params, FiltersFrom(params))
  {
    FilterNames();
  }

  function ReadSoFar(params: map<string, string>, keys: seq<string>): Filters {
    map k | k in params && k in keys :: ValuesOf(params[k])
  }

  lemma ReadOneMore(params: map<string, string>, keys: seq<string>, i: nat)
    requires i < |keys| && keys[i] in params
    ensures ReadSoFar(params, keys[..i + 1]) == ReadSoFar(params, keys[..i])[keys[i] := ValuesOf(params[keys[i]])]
  {
    assert keys[..i + 1] == keys[..i] + [keys[i]];
  }

  lemma AllRead(params: map<string, string>, keys: seq<string>)
    requires forall k :: k in keys <==> k in params
    ensures FiltersFrom(params) == InitialState() + ReadSoFar(params, keys)
    ensures AreRead(params, InitialState() + ReadSoFar(params, keys))
  {
    ParametersAreRead(params);
  }

  method ReadFilters(params: map<string, string>, keys: seq<string>) returns (filters: Filters)
    requires forall k :: k in keys <==> k in params
    ensures filters == FiltersFrom(params)
    ensures AreRead(params, filters)
  {
    var newFilters: Filters := map[];
    for i := 0 to |keys|
      invariant newFilters == ReadSoFar(params, keys[..i])
    {
      ReadOneMore(params, keys, i);
      newFilters := newFilters[keys[i] := ValuesOf(params[keys[i]])];
    }
    assert keys[..|keys|] == keys;
    AllRead(params, keys);
    var initial := InitialFilterState();
    filters := initial + newFilters;
  }

  // ----- Through the URL -----

  /** A reader that reads each encoded text back before going on. */
  ghost predicate ReadsTexts(encode: string -> string, decode: string -> Option<string>) {
    && decode("") == Some("")
    && (forall h, rest {:trigger decode(encode(h) + rest)} ::
          decode(rest).Some? ==> decode(encode(h) + rest) == Some(h + decode(rest).value))
    && (forall rest {:trigger decode("," + rest)} ::
          decode(rest).Some? ==> decode("," + rest) == Some("," + decode(rest).value))
  }

  lemma {:induction false} ReadsJoined(encode: string -> string, decode: string -> Option<string>, texts: seq<string>)
    requires ReadsTexts(encode, decode)
    ensures decode(Join(Map(encode, texts), ",")) == Some(Join(texts, ","))
  {
    if texts != [] {
      var h, more := texts[0], texts[1..];
      assert Map(encode, texts)[1..] == Map(encode, more);
      if |texts| == 1 {
        assert decode(encode(h) + "") == Some(h + "");
        assert encode(h) + "" == encode(h) && h + "" == h;
      } else {
        var rest := Join(Map(encode, more), ",");
        ReadsJoined(encode, decode, more);
        assert decode("," + rest) == Some("," + Join(more, ","));
        assert Join(Map(encode, texts), ",") == encode(h) + ("," + rest);
        assert decode(encode(h) + ("," + rest)) == Some(h + ("," + Join(more, ",")));
        assert h + ("," + Join(more, ",")) == Join(texts, ",");
      }
    }
  }

  lemma DecodeValueText(values: seq<string>)
    ensures Decode(ValueText(values)) == Some(Join(Map(Hide, values), ","))
  {
    forall h, rest | Decode(rest).Some? ensures Decode(Encode(h) + rest) == Some(h + Decode(rest).value) {
      DecodeEncoded(h, rest);
    }
    forall rest | Decode(rest).Some? ensures Decode("," + rest) == Some("," + Decode(rest).value) {
      assert ("," + rest)[1..] == rest;
    }
    assert Map(EncodeValue, values) == Map(Encode, Map(Hide, values));
    ReadsJoined(Encode, Decode, Map(Hide, values));
  }

  lemma EncodedValueSafe(value: string, c: char)
    requires c == '&' || c == '=' || c == '+'
    ensures c !in EncodeValue(value)
  {
    if c in Encode(Hide(value)) {
      EncodedSafe(Hide(value), c);
    }
  }

  lemma ValueTextSafe(values: seq<string>, c: char)
    requires c == '&' || c == '=' || c == '+'
    ensures c !in ValueText(values)
  {
    var parts := Map(EncodeValue, values);
    forall p | p in parts ensures c !in p {
      var i :| 0 <= i < |parts| && parts[i] == p;
      EncodedValueSafe(values[i], c);
    }
    JoinAvoids(parts, ",", c);
  }

  lemma {:induction false} NoPlus(t: string)
    requires '+' !in t
    ensures PlusToSpace(t) == t
  {
    forall i | 0 <= i < |t| ensures PlusToSpace(t)[i] == t[i] {
      assert t[i] in t;
    }
  }

  predicate IsLetter(c: char) {
    'a' <= c <= 'z' || 'A' <= c <= 'Z'
  }

  predicate IsName(name: string) {
    name != "" && forall c :: c in name ==> IsLetter(c)
  }

  lemma {:induction false} DecodeName(name: string)
    requires forall c :: c in name ==> IsLetter(c)
    ensures Decode(name) == Some(name)
  {
    if name != "" {
      DecodeName(name[1..]);
      assert IsLetter(name[0]) && name == [name[0]] + name[1..];
    }
  }

  lemma ParsePartOfFilter(filters: Filters, name: string)
    requires IsName(name) && name in filters
    ensures ParsePart(Part(filters)(name)) == (name, Join(Map(Hide, filters[name]), ","))
    ensures '&' !in Part(filters)(name)
  {
    var text := ValueText(filters[name]);
    var part := name + ['='] + text;
    assert Part(filters)(name) == part;
    SplitAt(name, '=', text);
    assert part[|name| + 1..] == text;
    ValueTextSafe(filters[name], '&');
    ValueTextSafe(filters[name], '+');
    NoPlus(name);
    NoPlus(text);
    DecodeName(name);
    DecodeValueText(filters[name]);
  }

  lemma MapOfOneMore(keys: seq<string>, last: string, value: string -> string)
    ensures (map k | k in keys + [last] :: value(k)) == (map k | k in keys :: value(k))[last := value(last)]
  {
  }

  lemma {:induction false} CollectDistinct(pairs: seq<(string, string)>, keys: seq<string>, value: string -> string)
    requires Distinct(keys) && |pairs| == |keys|
    requires forall i :: 0 <= i < |keys| ==> keys[i] != "" && pairs[i] == (keys[i], value(keys[i]))
    ensures Collect(pairs) == map k | k in keys :: value(k)
  {
    if keys != [] {
      var before, last := keys[..|keys| - 1], keys[|keys| - 1];
      CollectDistinct(pairs[..|pairs| - 1], before, value);
      assert keys == before + [last];
      MapOfOneMore(before, last, value);
    }
  }

  function HiddenText(filters: Filters): string -> string {
    k => if k in filters then Join(Map(Hide, filters[k]), ",") else ""
  }

  lemma ParsePartsOfFilters(filters: Filters, keys: seq<string>)
    requires Distinct(keys) && forall k :: k in keys ==> IsName(k) && k in filters
    ensures Collect(Map(ParsePart, Map(Part(filters), keys))) == map k | k in keys :: HiddenText(filters)(k)
    ensures forall p :: p in Map(Part(filters), keys) ==> '&' !in p
  {
    var parts := Map(Part(filters), keys);
    var pairs := Map(ParsePart, parts);
    forall i | 0 <= i < |keys|
      ensures keys[i] != "" && pairs[i] == (keys[i], HiddenText(filters)(keys[i])) && '&' !in parts[i]
    {
      assert keys[i] in keys;
      ParsePartOfFilter(filters, keys[i]);
    }
    CollectDistinct(pairs, keys, HiddenText(filters));
  }

  lemma {:induction false} ActiveDistinct(filters: Filters, order: seq<string>)
    requires Distinct(order)
    ensures Distinct(FlatMap(Active(filters), order))
    ensures forall k :: k in FlatMap(Active(filters), order) <==> k in order && k in filters && filters[k] != []
  {
    if order != [] {
      ActiveDistinct(filters, order[1..]);
      assert order == [order[0]] + order[1..];
    }
  }

  lemma ParseJoined(parts: seq<string>)
    requires parts != [] && parts[0] != "" && forall p :: p in parts ==> '&' !in p
    ensures ParseQuery("?" + Join(parts, "&")) == Collect(Map(ParsePart, parts))
  {
    SplitJoin(parts, '&');
    assert ("?" + Join(parts, "&"))[1..] == Join(parts, "&");
  }

  lemma ParseActive(filters: Filters, active: seq<string>)
    requires active != [] && Distinct(active) && forall k :: k in active ==> IsName(k) && k in filters
    ensures ParseQuery("?" + Join(Map(Part(filters), active), "&")) == map k | k in active :: HiddenText(filters)(k)
  {
    var parts := Map(Part(filters), active);
    ParsePartsOfFilters(filters, active);
    assert active[0] in active && active[0] != "";
    assert |parts[0]| >= |active[0]| by { assert parts[0] == Part(filters)(active[0]); }
    ParseJoined(parts);
  }

  /** What the page gets to see of the query: the values of each filter that has some, commas hidden. */
  lemma ParseWritten(filters: Filters, order: seq<string>)
    requires Distinct(order) && (forall k :: k in order <==> k in filters) && forall k :: k in filters ==> IsName(k)
    ensures ParseQuery(FiltersToQuery(filters, order))
            == map k | k in filters && filters[k] != [] :: HiddenText(filters)(k)
  {
    var active := FlatMap(Active(filters), order);
    ActiveDistinct(filters, order);
    assert forall k :: k in active ==> IsName(k) && k in filters;
    ParseEvenNone(filters, active);
    SameKeys(filters, active, HiddenText(filters));
  }

  lemma ParseEvenNone(filters: Filters, active: seq<string>)
    requires Distinct(active) && forall k :: k in active ==> IsName(k) && k in filters
    ensures ParseQuery(if active == [] then "" else "?" + Join(Map(Part(filters), active), "&"))
            == map k | k in active :: HiddenText(filters)(k)
  {
    if active == [] {
      ParseNothing();
    } else {
      ParseActive(filters, active);
    }
  }

  lemma ParseNothing()
    ensures ParseQuery("") == map[]
  {
  }

  lemma SameKeys(filters: Filters, active: seq<string>, text: string -> string)
    requires forall k :: k in active <==> k in filters && filters[k] != []
    ensures (map k | k in active :: text(k)) == map k | k in filters && filters[k] != [] :: text(k)
  {
  }

  lemma ValuesReadBack(values: seq<string>)
    requires values != []
    ensures ValuesOf(Join(Map(Hide, values), ",")) == Map(v => Restore(Hide(v)), values)
  {
    var hidden := Map(Hide, values);
    forall p | p in hidden ensures ',' !in p {
      var i :| 0 <= i < |hidden| && hidden[i] == p;
      HideHidesComma(values[i]);
    }
    SplitJoin(hidden, ',');
  }

  ghost predicate AllRestorable(filters: Filters) {
    forall k, v :: k in filters && v in filters[k] ==> Restorable(v)
  }

  lemma EachAt(back: seq<string>, values: seq<string>)
    requires |back| == |values| && forall i :: 0 <= i < |values| ==> (back[i] == values[i] <==> Restorable(values[i]))
    ensures back == values <==> forall v :: v in values ==> Restorable(v)
  {
    if back == values {
      forall v | v in values ensures Restorable(v) {
        var i :| 0 <= i < |values| && values[i] == v;
      }
    }
  }

  lemma ValuesRestoredIff(values: seq<string>)
    requires values != []
    ensures ValuesOf(Join(Map(Hide, values), ",")) == values <==> forall v :: v in values ==> Restorable(v)
  {
    ValuesReadBack(values);
    var back := ValuesOf(Join(Map(Hide, values), ","));
    forall i | 0 <= i < |values| ensures back[i] == values[i] <==> Restorable(values[i]) {
      RestoreHideIff(values[i]);
    }
    EachAt(back, values);
  }

  lemma FilterReadBack(filters: Filters, params: map<string, string>, k: string)
    requires params == map k | k in filters && filters[k] != [] :: HiddenText(filters)(k)
    requires k in filters && k in FILTER_NAMES
    ensures FiltersFrom(params)[k] == filters[k] <==> forall v :: v in filters[k] ==> Restorable(v)
  {
    if filters[k] != [] {
      ValuesRestoredIff(filters[k]);
      assert FiltersFrom(params)[k] == ValuesOf(Join(Map(Hide, filters[k]), ","));
    } else {
      assert k !in params;
    }
  }

  lemma ReadBackIff(filters: Filters, params: map<string, string>)
    requires forall k :: k in filters ==> k in FILTER_NAMES
    requires params == map k | k in filters && filters[k] != [] :: HiddenText(filters)(k)
    ensures FiltersFrom(params) == InitialState() + filters <==> AllRestorable(filters)
  {
    var back, whole := FiltersFrom(params), InitialState() + filters;
    assert back.Keys == whole.Keys;
    if AllRestorable(filters) {
      forall k | k in whole ensures back[k] == whole[k] {
        if k in filters {
          FilterReadBack(filters, params, k);
        }
      }
    }
    if back == whole {
      forall k, v | k in filters && v in filters[k] ensures Restorable(v) {
        FilterReadBack(filters, params, k);
      }
    }
  }

  /** Filters pushed into the URL come back as they were, over an empty value for every other filter, exactly when no
      value holds "__" or "_,". */
  lemma FiltersRoundTripIff(filters: Filters, order: seq<string>)
    requires Distinct(order) && (forall k :: k in order <==> k in filters)
    requires forall k :: k in filters ==> IsFilter(k)
    ensures FiltersFrom(ParseQuery(FiltersToQuery(filters, order)))
            == map["Search" := [], "Type" := [], "Repository" := [], "Category" := [], "Provider" := []] + filters
            <==> AllRestorable(filters)
  {
    FilterNames();
    assert InitialState() == map["Search" := [], "Type" := [], "Repository" := [], "Category" := [], "Provider" := []];
    NamesAreLetters();
    ParseWritten(filters, order);
    ReadBackIff(filters, ParseQuery(FiltersToQuery(filters, order)));
  }

  ghost predicate AllLetters(texts: seq<string>) {
    forall t, c :: t in texts && c in t ==> IsLetter(c)
  }

  lemma {:induction false} LettersStay(t: string)
    requires forall c :: c in t ==> IsLetter(c)
    ensures Hide(t) == t && Encode(t) == t
  {
    if t != "" {
      assert t == [t[0]] + t[1..] && IsLetter(t[0]);
      LettersStay(t[1..]);
      KeptIff(t[0]);
      EncodeConcat([t[0]], t[1..]);
    }
  }

  lemma LettersText(values: seq<string>)
    requires AllLetters(values)
    ensures ValueText(values) == Join(values, ",")
  {
    forall i | 0 <= i < |values| ensures EncodeValue(values[i]) == values[i] {
      assert values[i] in values;
      LettersStay(values[i]);
    }
    assert Map(EncodeValue, values) == values;
  }

  lemma WrittenPart(filters: Filters, filter: string)
    requires filter in filters && AllLetters(filters[filter])
    ensures Part(filters)(filter) == filter + "=" + Join(filters[filter], ",")
  {
    LettersText(filters[filter]);
  }

  lemma ActiveOfTwo(filters: Filters, a: string, b: string)
    ensures FlatMap(Active(filters), [a, b]) == Active(filters)(a) + Active(filters)(b)
  {
    assert [a, b][1..] == [b] && [b][1..] == [];
    assert FlatMap(Active(filters), [b]) == Active(filters)(b) + FlatMap(Active(filters), []);
  }

  lemma JoinedParts(filters: Filters, a: string, b: string)
    ensures Join(Map(Part(filters), [a]), "&") == Part(filters)(a)
    ensures Join(Map(Part(filters), [a, b]), "&") == Part(filters)(a) + "&" + Part(filters)(b)
  {
    assert Map(Part(filters), [a]) == [Part(filters)(a)];
    assert Map(Part(filters), [a, b]) == [Part(filters)(a)] + [Part(filters)(b)];
    JoinCons(Part(filters)(a), [Part(filters)(b)], "&");
  }

  /** How two filters are written, whose values are letters. */
  lemma QueryOfTwo(filters: Filters, a: string, b: string)
    requires a != b && a in filters && b in filters && AllLetters(filters[a]) && AllLetters(filters[b])
    requires filters[a] != [] && filters[b] != []
    ensures FiltersToQuery(filters, [a, b])
         == "?" + ((a + "=" + Join(filters[a], ",")) + "&" + (b + "=" + Join(filters[b], ",")))
  {
    ActiveOfTwo(filters, a, b);
    assert [a] + [b] == [a, b];
    JoinedParts(filters, a, b);
    WrittenPart(filters, a);
    WrittenPart(filters, b);
  }

  /** A filter without values is not written. */
  lemma QueryOfOne(filters: Filters, a: string, b: string)
    requires a in filters && AllLetters(filters[a]) && filters[a] != [] && b in filters && filters[b] == []
    ensures FiltersToQuery(filters, [a, b]) == "?" + (a + "=" + Join(filters[a], ","))
    ensures FiltersToQuery(filters, [b, a]) == "?" + (a + "=" + Join(filters[a], ","))
    ensures FiltersToQuery(filters, [b, b]) == ""
  {
    ActiveOfTwo(filters, a, b);
    ActiveOfTwo(filters, b, a);
    ActiveOfTwo(filters, b, b);
    assert [a] + [] == [a] && [] + [a] == [a];
    JoinedParts(filters, a, b);
    WrittenPart(filters, a);
  }

  lemma NamesAreLetters()
    ensures forall name :: name in FILTER_NAMES ==> IsName(name)
  {
  }
}
