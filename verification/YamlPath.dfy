/** Setting, reading and deleting a value of a YAML document at a slash-separated path (dashboard/src/shared/schema.ts).
    Documents are trees: printing and parsing text is left to the YAML library. */
module YamlPath {
  import opened Wrappers
  import opened Sequences
  import opened Text

  // A leaf is a scalar or a sequence.
  datatype Yaml = Null | Leaf(text: string) | Mapping(fields: map<string, Yaml>)

  /** lodash's `set` on an empty object: the path, as one string, and the value. */
  type Lodash = (string, Yaml) -> Yaml

  // ----- Path components -----

  // s.replace(/<first><second>/g, replacement)
  function Replace(s: string, first: char, second: char, replacement: char): string {
    if |s| < 2 then s
    else if s[0] == first && s[1] == second then [replacement] + Replace(s[2..], first, second, replacement)
    else [s[0]] + Replace(s[1..], first, second, replacement)
  }

  // jsonpatch.unescapePathComponent
  function Unescape(s: string): string {
    Replace(Replace(s, '~', '1', '/'), '~', '0', '~')
  }

  /** How section 4 of RFC 6901 writes a key. */
  function Escape(s: string): string {
    FlatMap(EscapeChar, s)
  }

  function EscapeChar(c: char): string {
    if c == '~' then "~0" else if c == '/' then "~1" else [c]
  }

  function SplitPath(path: string): (parts: seq<string>)
    ensures |parts| > 0
  {
    Split(DropSlash(path), '/')
  }

  function DropSlash(path: string): string {
    if path != "" && path[0] == '/' then path[1..] else path
  }

  function UnescapePath(parts: seq<string>): seq<string> {
    Map(Unescape, parts)
  }

  function ParsePath(path: string): (keys: seq<string>)
    ensures |keys| > 0
  {
    UnescapePath(SplitPath(path))
  }

  // ----- The YAML library -----

  function Child(node: Yaml, key: string): Option<Yaml> {
    if node.Mapping? && key in node.fields then Some(node.fields[key]) else None
  }

  // None is undefined.
  function GetIn(node: Yaml, path: seq<string>): Option<Yaml> {
    if path == [] then Some(node)
    else
      var child := Child(node, path[0]);
      if child.None? then None else GetIn(child.value, path[1..])
  }

  function SetNode(node: Yaml, path: seq<string>, value: Yaml): Result<Yaml, string> {
    if path == [] then Ok(value)
    else if !node.Mapping? then Err("Expected YAML collection")
    else if |path| == 1 then Ok(Mapping(node.fields[path[0] := value]))
    else
      var child := Child(node, path[0]);
      if child.None? then Err("Expected YAML collection")
      else
        var changed := SetNode(child.value, path[1..], value);
        if changed.Err? then changed else Ok(Mapping(node.fields[path[0] := changed.value]))
  }

  function DeleteNode(node: Yaml, path: seq<string>): Result<Yaml, string>
    requires path != []
  {
    if !node.Mapping? then Err("Expected YAML collection")
    else if |path| == 1 then Ok(Mapping(node.fields - {path[0]}))
    else
      var child := Child(node, path[0]);
      if child.None? then Err("Expected YAML collection")
      else
        var changed := DeleteNode(child.value, path[1..]);
        if changed.Err? then changed else Ok(Mapping(node.fields[path[0] := changed.value]))
  }

  function SetContents(contents: Option<Yaml>, path: seq<string>, value: Yaml): Result<Yaml, string> {
    if path == [] then Ok(value)
    else if contents.None? then Err("Expected a YAML collection as document contents")
    else SetNode(contents.value, path, value)
  }

  /** A parsed document; without contents it is empty. */
  class Document {
    var contents: Option<Yaml>

    constructor (contents: Option<Yaml>)
      ensures this.contents == contents
    {
      this.contents := contents;
    }

    method SetIn(path: seq<string>, value: Yaml) returns (thrown: bool)
      modifies this
      ensures thrown == SetContents(old(contents), path, value).Err?
      ensures contents == if thrown then old(contents) else Some(SetContents(old(contents), path, value).value)
    {
      if path == [] {
        contents := Some(value);
        return false;
      }
      if contents.None? {
        return true;
      }
      var changed := SetNode(contents.value, path, value);
      if changed.Err? {
        return true;
      }
      contents := Some(changed.value);
      return false;
    }

    method DeleteIn(path: seq<string>) returns (thrown: bool)
      modifies this
      ensures path == [] ==> !thrown && contents.None?
      ensures path != [] && old(contents).None? ==> thrown
      ensures path != [] && old(contents).Some? ==> thrown == DeleteNode(old(contents).value, path).Err?
      ensures thrown ==> contents == old(contents)
      ensures path != [] && !thrown ==> contents == Some(DeleteNode(old(contents).value, path).value)
    {
      if path == [] {
        contents := None;
        return false;
      }
      if contents.None? {
        return true;
      }
      var changed := DeleteNode(contents.value, path);
      if changed.Err? {
        return true;
      }
      contents := Some(changed.value);
      return false;
    }
  }

  // ----- schema.ts -----

  predicate IsDefined(node: Option<Yaml>) {
    node.Some? && node.value != Null
  }

  /** How many leading components lead to something that is neither undefined nor null. */
  function DefinedLength(node: Yaml, path: seq<string>): (n: nat)
    ensures n <= |path|
  {
    if path == [] || !IsDefined(Child(node, path[0])) then 0
    else 1 + DefinedLength(Child(node, path[0]).value, path[1..])
  }

  lemma {:induction false} DefinedUpTo(node: Yaml, path: seq<string>, k: nat)
    requires k < |path|
    ensures k < DefinedLength(node, path) ==> IsDefined(GetIn(node, path[..k + 1]))
    ensures k == DefinedLength(node, path) ==> !IsDefined(GetIn(node, path[..k + 1]))
  {
    if k > 0 && IsDefined(Child(node, path[0])) {
      DefinedUpTo(Child(node, path[0]).value, path[1..], k - 1);
      assert path[..k + 1][1..] == path[1..][..k];
    } else {
      assert path[..k + 1][0] == path[0];
    }
  }

  method GetDefinedPath(allElementsButTheLast: seq<string>, root: Yaml) returns (currentPath: seq<string>)
    ensures currentPath == allElementsButTheLast[..DefinedLength(root, allElementsButTheLast)]
  {
    currentPath := [];
    var foundUndefined := false;
    ghost var n := DefinedLength(root, allElementsButTheLast);
    for i := 0 to |allElementsButTheLast|
      invariant foundUndefined <==> i > n
      invariant currentPath == allElementsButTheLast[..if i < n then i else n]
    {
      if !foundUndefined {
        var pathToEvaluate := currentPath + [allElementsButTheLast[i]];
        assert pathToEvaluate == allElementsButTheLast[..i + 1];
        DefinedUpTo(root, allElementsButTheLast, i);
        var elem := GetIn(root, pathToEvaluate);
        if elem.None? || elem.value == Null {
          foundUndefined := true;
        } else {
          currentPath := pathToEvaluate;
        }
      }
    }
  }

  function Parents(path: string): seq<string> {
    SplitPath(path)[..|SplitPath(path)| - 1]
  }

  /** How many of the components setIn is given: all, or one more than are defined. */
  function Reach(root: Yaml, path: string): (n: nat)
    ensures 0 < n <= |SplitPath(path)|
  {
    if GetIn(root, Parents(path)).None? then DefinedLength(root, Parents(path)) + 1 else |SplitPath(path)|
  }

  /** The path and value handed to the document. */
  function PathAndValue(lodashSet: Lodash, root: Yaml, path: string, value: Yaml): (seq<string>, Yaml) {
    var parts, n := SplitPath(path), Reach(root, path);
    (UnescapePath(parts[..n]),
     if GetIn(root, Parents(path)).None? then lodashSet(Join(parts[n..], "."), value) else value)
  }

  method ParsePathAndValue(lodashSet: Lodash, doc: Document, path: string, value: Yaml)
      returns (splittedPath: seq<string>, newValue: Yaml)
    ensures doc.contents.None? ==> (splittedPath, newValue) == ([], lodashSet(DropSlash(path), value))
    ensures doc.contents.Some? ==>
      (splittedPath, newValue) == PathAndValue(lodashSet, doc.contents.value, path, value)
  {
    if doc.contents.None? {
      return [], lodashSet(DropSlash(path), value);
    }
    splittedPath := SplitPath(path);
    newValue := value;
    var allElementsButTheLast := splittedPath[..|splittedPath| - 1];
    var parentNode := GetIn(doc.contents.value, allElementsButTheLast);
    if parentNode.None? {
      var definedPath := GetDefinedPath(allElementsButTheLast, doc.contents.value);
      var remainingPath := splittedPath[|definedPath| + 1..];
      newValue := lodashSet(Join(remainingPath, "."), value);
      splittedPath := splittedPath[..|definedPath| + 1];
    }
    assert SplitPath(path)[..|SplitPath(path)|] == SplitPath(path);
    splittedPath := UnescapePath(splittedPath);
  }

  function AfterSet(lodashSet: Lodash, values: Option<Yaml>, path: string, value: Yaml): Result<Yaml, string> {
    if values.None? then Ok(lodashSet(DropSlash(path), value))
    else
      var (keys, newValue) := PathAndValue(lodashSet, values.value, path, value);
      SetNode(values.value, keys, newValue)
  }

  function AfterDelete(values: Option<Yaml>, path: string): Result<Option<Yaml>, string> {
    if values.None? then Ok(None)
    else
      var changed := DeleteNode(values.value, UnescapePath(SplitPath(path)[..Reach(values.value, path)]));
      if changed.Err? then Err(changed.error)
      else Ok(if changed.value == Mapping(map[]) then None else Some(changed.value))
  }

  method SetValue(lodashSet: Lodash, values: Option<Yaml>, path: string, newValue: Yaml) returns (r: Option<Yaml>)
    ensures r == match AfterSet(lodashSet, values, path, newValue) case Ok(v) => Some(v) case Err(_) => None
  {
    var doc := new Document(values);
    var splittedPath, value := ParsePathAndValue(lodashSet, doc, path, newValue);
    var thrown := doc.SetIn(splittedPath, value);
    return if thrown then None else doc.contents;
  }

  method DeleteValue(lodashSet: Lodash, values: Option<Yaml>, path: string) returns (r: Result<Option<Yaml>, string>)
    ensures r.Ok? == AfterDelete(values, path).Ok? && (r.Ok? ==> r == AfterDelete(values, path))
  {
    var doc := new Document(values);
    var splittedPath, _ := ParsePathAndValue(lodashSet, doc, path, Null);
    var thrown := doc.DeleteIn(splittedPath);
    if thrown {
      return Err("Expected YAML collection");
    }
    if doc.contents.Some? && doc.contents.value.Mapping? && doc.contents.value.fields != map[] {
      return Ok(doc.contents);
    }
    return Ok(None);
  }

  /** What getValue sees at a list of keys: None stands for the default. */
  function Read(values: Option<Yaml>, keys: seq<string>): Option<Yaml> {
    if values.None? || !IsDefined(GetIn(values.value, keys)) then None else GetIn(values.value, keys)
  }

  function GetValue(values: Option<Yaml>, path: string, default: Option<Yaml>): Option<Yaml> {
    var value := Read(values, ParsePath(path));
    if value.None? then default else value
  }

  // ----- Escapes -----

  predicate Escaped(s: string) {
    exists i :: 0 <= i < |s| - 1 && s[i] == '~' && (s[i + 1] == '0' || s[i + 1] == '1')
  }

  predicate Occurs(s: string, first: char, second: char) {
    exists i :: 0 <= i < |s| - 1 && s[i] == first && s[i + 1] == second
  }

  lemma {:induction false} ReplaceShrinks(s: string, first: char, second: char, replacement: char)
    ensures |Replace(s, first, second, replacement)| <= |s|
    ensures Occurs(s, first, second) ==> |Replace(s, first, second, replacement)| < |s|
    ensures !Occurs(s, first, second) ==> Replace(s, first, second, replacement) == s
  {
    if |s| >= 2 {
      if s[0] == first && s[1] == second {
        ReplaceShrinks(s[2..], first, second, replacement);
      } else {
        ReplaceShrinks(s[1..], first, second, replacement);
        if i :| 0 <= i < |s| - 1 && s[i] == first && s[i + 1] == second {
          assert s[1..][i - 1] == first && s[1..][i - 1 + 1] == second;
        }
        if i :| 0 <= i < |s[1..]| - 1 && s[1..][i] == first && s[1..][i + 1] == second {
          assert s[i + 1] == first && s[i + 1 + 1] == second;
        }
        assert s == [s[0]] + s[1..];
      }
    }
  }

  lemma {:induction false} ReplaceKeeps(s: string, first: char, second: char, replacement: char, c: char)
    requires c != first && c != second && c != replacement
    ensures c in Replace(s, first, second, replacement) <==> c in s
  {
    if |s| >= 2 {
      if s[0] == first && s[1] == second {
        ReplaceKeeps(s[2..], first, second, replacement, c);
        assert s == [s[0], s[1]] + s[2..];
      } else {
        ReplaceKeeps(s[1..], first, second, replacement, c);
        assert s == [s[0]] + s[1..];
      }
    }
  }

  lemma UnescapeSame(s: string)
    ensures Unescape(s) == s <==> !Escaped(s)
    ensures '.' in Unescape(s) <==> '.' in s
  {
    var once := Replace(s, '~', '1', '/');
    ReplaceShrinks(s, '~', '1', '/');
    ReplaceShrinks(once, '~', '0', '~');
    ReplaceKeeps(s, '~', '1', '/', '.');
    ReplaceKeeps(once, '~', '0', '~', '.');
    if i :| 0 <= i < |s| - 1 && s[i] == '~' && (s[i + 1] == '0' || s[i + 1] == '1') {
      assert Occurs(s, '~', '0') || Occurs(s, '~', '1');
    }
  }

  function SlashesBack(s: string): string {
    if s == "" then "" else (if s[0] == '~' then "~0" else [s[0]]) + SlashesBack(s[1..])
  }

  lemma {:induction false} FirstReplace(s: string)
    ensures Replace(Escape(s), '~', '1', '/') == SlashesBack(s)
  {
    if s != "" {
      var rest := Escape(s[1..]);
      FirstReplace(s[1..]);
      if s[0] == '~' {
        TakeEscaped('0', rest);
      } else if s[0] == '/' {
        TakeEscaped('1', rest);
      } else {
        SkipOne(s[0], rest);
      }
    }
  }

  lemma TakeEscaped(c: char, rest: string)
    requires c != '~'
    ensures Replace(['~', c] + rest, '~', '1', '/')
            == if c == '1' then "/" + Replace(rest, '~', '1', '/') else ['~', c] + Replace(rest, '~', '1', '/')
  {
    var s := ['~', c] + rest;
    assert s[1..] == [c] + rest && s[2..] == rest;
    SkipOne(c, rest);
  }

  lemma SkipOne(c: char, rest: string)
    requires c != '~'
    ensures Replace([c] + rest, '~', '1', '/') == [c] + Replace(rest, '~', '1', '/')
  {
    assert ([c] + rest)[1..] == rest;
    if rest != "" {
      assert ([c] + rest)[0] == c;
    }
  }

  lemma {:induction false} SecondReplace(s: string)
    ensures Replace(SlashesBack(s), '~', '0', '~') == s
  {
    if s != "" {
      SecondReplace(s[1..]);
      var rest := SlashesBack(s[1..]);
      if s[0] == '~' {
        assert SlashesBack(s)[2..] == rest;
      } else {
        assert SlashesBack(s)[1..] == rest;
      }
    }
  }

  lemma EscapeOne(c: char)
    ensures Escape([c]) == EscapeChar(c)
  {
    assert [c][1..] == "" && Escape("") == "";
  }

  /** A tilde is written ~0 and a slash ~1, wherever they are; nothing else changes. */
  lemma EscapeEach(before: string, c: char, after: string)
    ensures Escape("") == ""
    ensures Escape(before + [c] + after)
         == Escape(before) + (if c == '~' then "~0" else if c == '/' then "~1" else [c]) + Escape(after)
  {
    FlatMapConcat(EscapeChar, before + [c], after);
    FlatMapConcat(EscapeChar, before, [c]);
    EscapeOne(c);
  }

  /** Every key, written as RFC 6901 says, is read back. */
  lemma UnescapeEscape(key: string)
    ensures Unescape(Escape(key)) == key
  {
    FirstReplace(key);
    SecondReplace(key);
  }

  lemma {:induction false} EscapeHidesSlash(key: string)
    ensures '/' !in Escape(key)
  {
    if key != "" {
      EscapeHidesSlash(key[1..]);
    }
  }

  /** Any list of keys can be addressed: its path is parsed back to it, with the first slash and, unless the first key
      is empty, without. */
  lemma ParsePathOfKeys(keys: seq<string>)
    requires keys != []
    ensures ParsePath("/" + Join(Map(Escape, keys), "/")) == keys
    ensures keys[0] != "" ==> ParsePath(Join(Map(Escape, keys), "/")) == keys
  {
    var parts := Map(Escape, keys);
    EscapeHidesSlash(keys[0]);
    if keys[0] != "" {
      assert Join(parts, "/")[0] == parts[0][0] && parts[0][0] in parts[0];
      assert DropSlash(Join(parts, "/")) == Join(parts, "/");
    }
    forall p | p in parts ensures '/' !in p {
      var i :| 0 <= i < |parts| && parts[i] == p;
      EscapeHidesSlash(keys[i]);
    }
    SplitJoin(parts, '/');
    assert DropSlash("/" + Join(parts, "/")) == Join(parts, "/");
    forall i | 0 <= i < |keys| ensures Unescape(parts[i]) == keys[i] {
      UnescapeEscape(keys[i]);
    }
  }

  /** The keys lead to this node. */
  ghost predicate LeadsTo(node: Yaml, keys: seq<string>, at: Yaml) {
    if keys == [] then at == node
    else node.Mapping? && keys[0] in node.fields && LeadsTo(node.fields[keys[0]], keys[1..], at)
  }

  lemma {:induction false} LeadsToMeans(node: Yaml, keys: seq<string>, at: Yaml)
    ensures LeadsTo(node, keys, at) <==> GetIn(node, keys) == Some(at)
  {
    if keys != [] && node.Mapping? && keys[0] in node.fields {
      LeadsToMeans(node.fields[keys[0]], keys[1..], at);
    }
  }

  /** getValue gives what the keys lead to, unless that is null or nothing: then the default. */
  lemma GetValueMeans(values: Option<Yaml>, path: string, default: Option<Yaml>)
    ensures forall root, at :: values == Some(root) && LeadsTo(root, ParsePath(path), at) && at != Null ==>
      GetValue(values, path, default) == Some(at)
    ensures (forall root, at :: values == Some(root) && LeadsTo(root, ParsePath(path), at) ==> at == Null) ==>
      GetValue(values, path, default) == default
  {
    if values.Some? {
      forall at ensures LeadsTo(values.value, ParsePath(path), at) <==> GetIn(values.value, ParsePath(path)) == Some(at)
      {
        LeadsToMeans(values.value, ParsePath(path), at);
      }
    }
  }

  // ----- The library functions as a lens -----

  lemma {:induction false} GetThrough(node: Yaml, path: seq<string>, rest: seq<string>)
    ensures GetIn(node, path + rest) ==
            if GetIn(node, path).None? then None else GetIn(GetIn(node, path).value, rest)
  {
    if path == [] {
      assert path + rest == rest;
    } else if Child(node, path[0]).Some? {
      GetThrough(Child(node, path[0]).value, path[1..], rest);
      assert (path + rest)[1..] == path[1..] + rest;
    }
  }

  /** The two paths part at some component. */
  predicate Diverge(p: seq<string>, q: seq<string>) {
    !(p <= q) && !(q <= p)
  }

  lemma DivergeTail(p: seq<string>, q: seq<string>)
    requires Diverge(p, q)
    ensures p != [] && q != [] && (p[0] == q[0] ==> Diverge(p[1..], q[1..]))
  {
    if p[0] == q[0] {
      assert p == [p[0]] + p[1..] && q == [q[0]] + q[1..];
    }
  }

  lemma {:induction false} SetThenGet(node: Yaml, path: seq<string>, value: Yaml, q: seq<string>)
    requires SetNode(node, path, value).Ok?
    ensures path <= q ==> GetIn(SetNode(node, path, value).value, q) == GetIn(value, q[|path|..])
    ensures Diverge(path, q) ==> GetIn(SetNode(node, path, value).value, q) == GetIn(node, q)
  {
    if path != [] && q != [] {
      if |path| > 1 && path[0] == q[0] {
        SetThenGet(Child(node, path[0]).value, path[1..], value, q[1..]);
        assert q == [q[0]] + q[1..] && path == [path[0]] + path[1..];
        if path <= q {
          assert q[1..][|path[1..]|..] == q[|path|..];
        }
      }
    }
  }

  lemma {:induction false} SetTwice(node: Yaml, path: seq<string>, value: Yaml, rest: seq<string>, inner: Yaml)
    requires SetNode(node, path, value).Ok? && SetNode(value, rest, inner).Ok?
    ensures SetNode(SetNode(node, path, value).value, path + rest, inner)
            == SetNode(node, path, SetNode(value, rest, inner).value)
  {
    if path == [] {
      assert path + rest == rest;
    } else {
      assert (path + rest)[0] == path[0] && (path + rest)[1..] == path[1..] + rest;
      var key := path[0];
      if |path| == 1 {
        assert path[1..] + rest == rest;
        var y := SetNode(value, rest, inner).value;
        assert node.fields[key := value][key := y] == node.fields[key := y];
      } else {
        var child := Child(node, key).value;
        SetTwice(child, path[1..], value, rest, inner);
        var changed := SetNode(child, path[1..], value).value;
        var after := SetNode(child, path[1..], SetNode(value, rest, inner).value);
        if after.Ok? {
          assert node.fields[key := changed][key := after.value] == node.fields[key := after.value];
        }
      }
    }
  }

  lemma {:induction false} SetWhatIsThere(node: Yaml, path: seq<string>)
    requires GetIn(node, path).Some?
    ensures SetNode(node, path, GetIn(node, path).value) == Ok(node)
  {
    if path != [] {
      var key := path[0];
      SetWhatIsThere(Child(node, key).value, path[1..]);
      assert node.fields[key := node.fields[key]] == node.fields;
    }
  }

  /** setIn and deleteIn get through exactly when everything but the last key leads to a mapping. */
  lemma {:induction false} ReachesIff(node: Yaml, path: seq<string>, value: Yaml)
    requires path != []
    ensures var parent := GetIn(node, path[..|path| - 1]);
            && (SetNode(node, path, value).Ok? <==> parent.Some? && parent.value.Mapping?)
            && (DeleteNode(node, path).Ok? <==> parent.Some? && parent.value.Mapping?)
  {
    var parents := path[..|path| - 1];
    if |path| > 1 && Child(node, path[0]).Some? {
      ReachesIff(Child(node, path[0]).value, path[1..], value);
      assert parents[1..] == path[1..][..|path[1..]| - 1];
    }
  }

  lemma {:induction false} DeleteThenGet(node: Yaml, path: seq<string>, q: seq<string>)
    requires path != [] && DeleteNode(node, path).Ok?
    ensures path <= q ==> GetIn(DeleteNode(node, path).value, q).None?
    ensures Diverge(path, q) ==> GetIn(DeleteNode(node, path).value, q) == GetIn(node, q)
  {
    if q != [] && |path| > 1 && path[0] == q[0] {
      DeleteThenGet(Child(node, path[0]).value, path[1..], q[1..]);
      assert q == [q[0]] + q[1..] && path == [path[0]] + path[1..];
    }
  }

  lemma {:induction false} SetThenDelete(node: Yaml, path: seq<string>, value: Yaml)
    requires path != [] && SetNode(node, path, value).Ok? && GetIn(node, path).None?
    ensures DeleteNode(SetNode(node, path, value).value, path) == Ok(node)
  {
    var key := path[0];
    if |path| == 1 {
      assert path[1..] == [];
      assert node.fields[key := value] - {key} == node.fields;
    } else {
      var child := Child(node, key).value;
      SetThenDelete(child, path[1..], value);
      var changed := SetNode(child, path[1..], value).value;
      assert node.fields[key := changed][key := child] == node.fields;
    }
  }

  // ----- What lodash builds -----

  function Nest(keys: seq<string>, value: Yaml): Yaml {
    if keys == [] then value else Mapping(map[keys[0] := Nest(keys[1..], value)])
  }

  // Names lodash refuses to set or finds on every object.
  const RESERVED: set<string> := {
    "__proto__", "constructor", "prototype", "hasOwnProperty", "isPrototypeOf", "propertyIsEnumerable",
    "toLocaleString", "toString", "valueOf", "__defineGetter__", "__defineSetter__", "__lookupGetter__",
      "__lookupSetter__"
  }

  predicate IsIndex(s: string) {
    s == "0" || (s != "" && s[0] != '0' && AllDigits(s))
  }

  /** A path lodash reads as keys between dots: no brackets, no reserved name, no array index below the top. */
  predicate Tame(path: string) {
    var keys := Split(path, '.');
    '[' !in path && ']' !in path
    && forall i :: 0 <= i < |keys| ==> keys[i] !in RESERVED && (i > 0 ==> !IsIndex(keys[i]))
  }

  ghost predicate Lawful(lodashSet: Lodash) {
    forall path, value :: Tame(path) ==> lodashSet(path, value) == Nest(Split(path, '.'), value)
  }

  /** A tree does not hold itself. */
  lemma {:induction false} NotInItself(node: Yaml, path: seq<string>)
    requires path != []
    ensures GetIn(node, path) != Some(node)
    decreases node
  {
    if GetIn(node, path) == Some(node) {
      var child := Child(node, path[0]).value;
      GetThrough(child, path[1..], [path[0]]);
      assert GetIn(child, path[1..] + [path[0]]) == Some(child) by {
        assert [path[0]][1..] == [];
      }
      NotInItself(child, path[1..] + [path[0]]);
    }
  }

  lemma {:induction false} NestGet(keys: seq<string>, value: Yaml)
    ensures GetIn(Nest(keys, value), keys) == Some(value)
  {
    if keys != [] {
      NestGet(keys[1..], value);
    }
  }

  /** In a chain of mappings only the chain itself leads to its end. */
  lemma {:induction false} NestLookup(keys: seq<string>, value: Yaml, path: seq<string>)
    ensures GetIn(Nest(keys, value), path) == Some(value) <==> path == keys
    ensures Diverge(keys, path) ==> GetIn(Nest(keys, value), path).None?
  {
    NestGet(keys, value);
    if keys == [] {
      if path != [] {
        NotInItself(value, path);
      }
    } else if path == [] {
      if Nest(keys, value) == value {
        NotInItself(value, keys);
      }
    } else if path[0] == keys[0] {
      NestLookup(keys[1..], value, path[1..]);
      assert keys == [keys[0]] + keys[1..] && path == [path[0]] + path[1..];
    }
  }

  lemma {:induction false} NestSet(keys: seq<string>, value: Yaml, other: Yaml)
    ensures SetNode(Nest(keys, value), keys, other) == Ok(Nest(keys, other))
  {
    if keys != [] {
      NestSet(keys[1..], value, other);
      if |keys| == 1 {
        assert keys[1..] == [];
      }
      assert map[keys[0] := Nest(keys[1..], value)][keys[0] := Nest(keys[1..], other)]
          == map[keys[0] := Nest(keys[1..], other)];
    }
  }

  /** No component has a dot or an escape. */
  predicate Plain(parts: seq<string>) {
    forall p :: p in parts ==> '.' !in p && !Escaped(p)
  }

  /** Splitting at dots gives the keys meant exactly when the components are plain. */
  lemma DotsReadBackIff(parts: seq<string>)
    requires parts != []
    ensures Split(Join(parts, "."), '.') == UnescapePath(parts) <==> Plain(parts)
  {
    forall p | p in parts ensures (Unescape(p) == p <==> !Escaped(p)) && ('.' in Unescape(p) <==> '.' in p) {
      UnescapeSame(p);
    }
    if Split(Join(parts, "."), '.') == UnescapePath(parts) {
      forall p | p in parts ensures '.' !in p {
        var i :| 0 <= i < |parts| && parts[i] == p;
        assert UnescapePath(parts)[i] in Split(Join(parts, "."), '.');
      }
      SplitJoin(parts, '.');
      forall p | p in parts ensures Unescape(p) == p {
        var i :| 0 <= i < |parts| && parts[i] == p;
        assert UnescapePath(parts)[i] == Unescape(p);
      }
    }
    if Plain(parts) {
      SplitJoin(parts, '.');
      assert UnescapePath(parts) == parts;
    }
  }

  // ----- Main results -----

  predicate Missing(root: Yaml, path: string) {
    GetIn(root, Parents(path)).None?
  }

  /** The components below the first undefined one, which become nested mappings of the new value. */
  function Rest(root: Yaml, path: string): seq<string> {
    SplitPath(path)[Reach(root, path)..]
  }

  lemma FullyDefined(node: Yaml, path: seq<string>)
    requires GetIn(node, path).None?
    ensures DefinedLength(node, path) < |path|
  {
    DefinedUpTo(node, path, |path| - 1);
    assert path[..|path| - 1 + 1] == path;
  }

  lemma UnescapeInParts(parts: seq<string>, n: nat)
    requires n <= |parts|
    ensures UnescapePath(parts) == UnescapePath(parts[..n]) + UnescapePath(parts[n..])
  {
  }

  lemma KeysSplit(root: Yaml, path: string)
    ensures ParsePath(path)
            == UnescapePath(SplitPath(path)[..Reach(root, path)]) + UnescapePath(Rest(root, path))
    ensures Missing(root, path) <==> Rest(root, path) != []
  {
    UnescapeInParts(SplitPath(path), Reach(root, path));
    if Missing(root, path) {
      FullyDefined(root, Parents(path));
    }
  }

  /** After a successful set the new value is read at the path exactly when the components to be created are plain. */
  lemma SetThenGetValueIff(lodashSet: Lodash, root: Yaml, path: string, value: Yaml)
    requires Lawful(lodashSet) && value != Null && Tame(Join(Rest(root, path), "."))
    requires AfterSet(lodashSet, Some(root), path, value).Ok?
    ensures GetValue(Some(AfterSet(lodashSet, Some(root), path, value).value), path, None) == Some(value)
            <==> Plain(Rest(root, path))
  {
    var (keys, newValue) := PathAndValue(lodashSet, root, path, value);
    var rest := Rest(root, path);
    KeysSplit(root, path);
    SetThenGet(root, keys, newValue, ParsePath(path));
    assert ParsePath(path)[|keys|..] == UnescapePath(rest);
    if Missing(root, path) {
      NestLookup(Split(Join(rest, "."), '.'), value, UnescapePath(rest));
      DotsReadBackIff(rest);
    }
  }

  /** In an empty document the whole path is handed to lodash as it is. */
  lemma SetInEmptyDocumentIff(lodashSet: Lodash, path: string, value: Yaml)
    requires Lawful(lodashSet) && value != Null && Tame(DropSlash(path))
    ensures AfterSet(lodashSet, None, path, value).Ok?
    ensures GetValue(Some(AfterSet(lodashSet, None, path, value).value), path, None) == Some(value)
            <==> '/' !in DropSlash(path) && '.' !in DropSlash(path) && !Escaped(DropSlash(path))
  {
    var s := DropSlash(path);
    var parts, keys := SplitPath(path), Split(DropSlash(path), '.');
    NestLookup(keys, value, ParsePath(path));
    if keys == ParsePath(path) {
      forall i | 0 <= i < |parts| ensures '.' !in parts[i] {
        UnescapeSame(parts[i]);
        assert keys[i] in keys;
      }
      JoinSplit(s, '/');
      JoinAvoids(parts, "/", '.');
      SplitPlain(s, '.');
      assert |parts| == 1 && parts[0] == s;
      UnescapeSame(s);
    } else if '/' !in s && '.' !in s {
      SplitPlain(s, '/');
      SplitPlain(s, '.');
      UnescapeSame(s);
      assert ParsePath(path) == [Unescape(s)];
    }
  }

  /** Everything the mapping at hand holds lies along the path. */
  predicate OnlyAlong(node: Yaml, path: seq<string>)
    requires path != []
    decreases |path|
  {
    node.Mapping? ==>
      forall k | k in node.fields ::
        if k != path[0] then node.fields[k] == Null
        else |path| == 1 || OnlyAlong(node.fields[k], path[1..])
  }

  lemma {:induction false} OnlyAlongHides(node: Yaml, path: seq<string>, q: seq<string>)
    requires path != [] && OnlyAlong(node, path) && Diverge(path, q)
    ensures !IsDefined(GetIn(node, q))
    decreases |path|
  {
    DivergeTail(path, q);
    if node.Mapping? && q[0] in node.fields {
      if q[0] == path[0] {
        assert |path| > 1;
        OnlyAlongHides(node.fields[q[0]], path[1..], q[1..]);
      } else if q[1..] != [] {
        assert node.fields[q[0]] == Null;
        assert GetIn(Null, q[1..]).None?;
      }
    }
  }

  lemma PrefixUnder(a: seq<string>, p: seq<string>, q: seq<string>)
    ensures a + p <= a + q <==> p <= q
  {
    assert (a + p)[|a|..] == p && (a + q)[|a|..] == q;
    if a + p <= a + q {
      assert (a + q)[..|a + p|][|a|..] == q[..|p|];
    }
    if p <= q {
      assert a + q == (a + p) + q[|p|..];
    }
  }

  lemma {:induction false} SomethingBeside(node: Yaml, path: seq<string>) returns (q: seq<string>)
    requires path != [] && !OnlyAlong(node, path)
    ensures Diverge(path, q) && IsDefined(GetIn(node, q))
    decreases |path|
  {
    var k :| k in node.fields
      && !(if k != path[0] then node.fields[k] == Null else |path| == 1 || OnlyAlong(node.fields[k], path[1..]));
    if k != path[0] {
      q := [k];
    } else {
      var rest := SomethingBeside(node.fields[k], path[1..]);
      q := [k] + rest;
      assert q[1..] == rest && path == [k] + path[1..];
      PrefixUnder([k], path[1..], rest);
      PrefixUnder([k], rest, path[1..]);
    }
  }

  /** What is at the place setValue writes to holds nothing but what the path goes through. */
  predicate NothingLost(root: Yaml, path: string) {
    var at := GetIn(root, UnescapePath(SplitPath(path)[..Reach(root, path)]));
    Missing(root, path) && at.Some? ==>
      UnescapePath(Rest(root, path)) != [] && OnlyAlong(at.value, UnescapePath(Rest(root, path)))
  }

  lemma Apart(a: seq<string>, rest: seq<string>, q: seq<string>)
    requires Diverge(a + rest, q)
    ensures Diverge(a, q) || (a <= q && Diverge(rest, q[|a|..]) && q == a + q[|a|..])
  {
    assert q <= a ==> q <= a + rest;
    if a <= q {
      assert q == a + q[|a|..];
    }
  }

  lemma SetElsewhere(lodashSet: Lodash, root: Yaml, path: string, value: Yaml, q: seq<string>)
    requires Lawful(lodashSet) && Tame(Join(Rest(root, path), ".")) && Plain(Rest(root, path))
    requires AfterSet(lodashSet, Some(root), path, value).Ok?
    requires NothingLost(root, path) && Diverge(ParsePath(path), q)
    ensures Read(Some(AfterSet(lodashSet, Some(root), path, value).value), q) == Read(Some(root), q)
  {
    var (keys, newValue) := PathAndValue(lodashSet, root, path, value);
    var rest := UnescapePath(Rest(root, path));
    KeysSplit(root, path);
    SetThenGet(root, keys, newValue, q);
    Apart(keys, rest, q);
    if !Diverge(keys, q) {
      var tail := q[|keys|..];
      DivergeTail(rest, tail);
      GetThrough(root, keys, tail);
      if GetIn(root, keys).Some? {
        OnlyAlongHides(GetIn(root, keys).value, rest, tail);
      }
      DotsReadBackIff(Rest(root, path));
      NestLookup(rest, value, tail);
    }
  }

  lemma SetLoses(lodashSet: Lodash, root: Yaml, path: string, value: Yaml) returns (q: seq<string>)
    requires Lawful(lodashSet) && Tame(Join(Rest(root, path), ".")) && Plain(Rest(root, path))
    requires AfterSet(lodashSet, Some(root), path, value).Ok? && !NothingLost(root, path)
    ensures Diverge(ParsePath(path), q) && IsDefined(GetIn(root, q))
    ensures Read(Some(AfterSet(lodashSet, Some(root), path, value).value), q).None?
  {
    var (keys, newValue) := PathAndValue(lodashSet, root, path, value);
    var rest := UnescapePath(Rest(root, path));
    KeysSplit(root, path);
    var tail := SomethingBeside(GetIn(root, keys).value, rest);
    q := keys + tail;
    GetThrough(root, keys, tail);
    SetThenGet(root, keys, newValue, q);
    assert q[|keys|..] == tail;
    DotsReadBackIff(Rest(root, path));
    NestLookup(rest, value, tail);
    PrefixUnder(keys, rest, tail);
    PrefixUnder(keys, tail, rest);
  }

  /** Every other path, neither a prefix nor an extension, reads as before exactly when what was written over held
      nothing else. */
  lemma SetKeepsOthersIff(lodashSet: Lodash, root: Yaml, path: string, value: Yaml)
    requires Lawful(lodashSet) && Tame(Join(Rest(root, path), ".")) && Plain(Rest(root, path))
    requires AfterSet(lodashSet, Some(root), path, value).Ok?
    ensures NothingLost(root, path) <==>
            forall q :: Diverge(ParsePath(path), q) ==>
              Read(Some(AfterSet(lodashSet, Some(root), path, value).value), q) == Read(Some(root), q)
  {
    if NothingLost(root, path) {
      forall q | Diverge(ParsePath(path), q)
        ensures Read(Some(AfterSet(lodashSet, Some(root), path, value).value), q) == Read(Some(root), q)
      {
        SetElsewhere(lodashSet, root, path, value, q);
      }
    } else {
      var q := SetLoses(lodashSet, root, path, value);
    }
  }

  predicate ParentsUnescaped(path: string) {
    forall p :: p in Parents(path) ==> !Escaped(p)
  }

  lemma UnescapeNone(parts: seq<string>)
    requires forall p :: p in parts ==> !Escaped(p)
    ensures UnescapePath(parts) == parts
  {
    forall i | 0 <= i < |parts| ensures Unescape(parts[i]) == parts[i] {
      assert parts[i] in parts;
      UnescapeSame(parts[i]);
    }
  }

  /** Without escapes in the parents what is written over is undefined or null, so nothing can be lost. */
  lemma UnescapedParentsLoseNothing(root: Yaml, path: string)
    requires ParentsUnescaped(path)
    ensures NothingLost(root, path)
  {
    if Missing(root, path) {
      var parents, n := Parents(path), Reach(root, path);
      KeysSplit(root, path);
      assert SplitPath(path)[..n] == parents[..n];
      UnescapeNone(parents[..n]);
      DefinedUpTo(root, parents, n - 1);
    }
  }

  /** A mapping is needed at the last parent and wherever a defined value is passed; missing or null ancestors above the
      last parent are created. */
  predicate Blocked(node: Yaml, parents: seq<string>)
    decreases |parents|
  {
    !node.Mapping? ||
    (parents != [] && parents[0] in node.fields &&
     var child := node.fields[parents[0]];
     if child == Null then |parents| == 1 else Blocked(child, parents[1..]))
  }

  /** The part of the keys that is handed to the library, from the parents and the last key. */
  function Handed(node: Yaml, parents: seq<string>, last: string): seq<string> {
    (parents + [last])[..if GetIn(node, parents).None? then DefinedLength(node, parents) + 1 else |parents| + 1]
  }

  lemma {:induction false} BlockedIff(node: Yaml, parents: seq<string>, last: string, value: Yaml)
    ensures Handed(node, parents, last) != []
    ensures SetNode(node, Handed(node, parents, last), value).Err? <==> Blocked(node, parents)
    ensures DeleteNode(node, Handed(node, parents, last)).Err? <==> Blocked(node, parents)
    decreases |parents|
  {
    var keys := Handed(node, parents, last);
    assert keys[0] == if parents == [] then last else parents[0];
    if node.Mapping? && parents != [] && parents[0] in node.fields {
      var child := node.fields[parents[0]];
      if child != Null {
        BlockedIff(child, parents[1..], last, value);
        assert (parents + [last])[1..] == parents[1..] + [last];
        assert keys[1..] == Handed(child, parents[1..], last);
      } else if |parents| == 1 {
        assert parents[1..] == [] && GetIn(node, parents) == Some(Null);
        assert keys[1..] == [last];
      } else {
        assert GetIn(Null, parents[1..]).None?;
        assert keys == [parents[0]];
      }
    }
  }

  lemma UnescapeOnlyLast(parts: seq<string>, n: nat)
    requires parts != [] && n <= |parts| && forall p :: p in parts[..|parts| - 1] ==> !Escaped(p)
    ensures UnescapePath(parts) == parts[..|parts| - 1] + [Unescape(parts[|parts| - 1])]
    ensures UnescapePath(parts[..n]) == (parts[..|parts| - 1] + [Unescape(parts[|parts| - 1])])[..n]
  {
    forall i | 0 <= i < |parts| - 1 ensures Unescape(parts[i]) == parts[i] {
      assert parts[..|parts| - 1][i] == parts[i];
      UnescapeSame(parts[i]);
    }
  }

  function LastKey(path: string): string {
    Unescape(SplitPath(path)[|SplitPath(path)| - 1])
  }

  lemma HandedKeys(root: Yaml, path: string)
    requires ParentsUnescaped(path)
    ensures UnescapePath(SplitPath(path)[..Reach(root, path)]) == Handed(root, Parents(path), LastKey(path))
    ensures ParsePath(path) == Parents(path) + [LastKey(path)]
  {
    UnescapeOnlyLast(SplitPath(path), Reach(root, path));
  }

  /** What the new value is to be entered into: the parents are followed as written as far as they are defined, but
      looked up with their escapes undone. */
  function EnteredInto(root: Yaml, path: string): Option<Yaml> {
    GetIn(root, UnescapePath(SplitPath(path)[..Reach(root, path) - 1]))
  }

  /** For every path, setValue and deleteValue throw exactly when that is not a mapping. */
  lemma ThrowsIff(lodashSet: Lodash, root: Yaml, path: string, value: Yaml)
    ensures var parent := EnteredInto(root, path);
            && (AfterSet(lodashSet, Some(root), path, value).Err? <==> parent.None? || !parent.value.Mapping?)
            && (AfterDelete(Some(root), path).Err? <==> parent.None? || !parent.value.Mapping?)
  {
    var (keys, newValue) := PathAndValue(lodashSet, root, path, value);
    assert keys[..|keys| - 1] == UnescapePath(SplitPath(path)[..Reach(root, path) - 1]);
    ReachesIff(root, keys, newValue);
  }

  /** Where no parent has an escape: they throw exactly when the parents are blocked. */
  lemma ThrowsIffBlocked(lodashSet: Lodash, root: Yaml, path: string, value: Yaml)
    requires ParentsUnescaped(path)
    ensures AfterSet(lodashSet, Some(root), path, value).Err? <==> Blocked(root, Parents(path))
    ensures AfterDelete(Some(root), path).Err? <==> Blocked(root, Parents(path))
  {
    HandedKeys(root, path);
    var (_, newValue) := PathAndValue(lodashSet, root, path, value);
    BlockedIff(root, Parents(path), LastKey(path), newValue);
  }

  lemma ParentsDefined(root: Yaml, path: string)
    requires ParentsUnescaped(path) && GetIn(root, ParsePath(path)).Some?
    ensures !Missing(root, path) && UnescapePath(SplitPath(path)[..Reach(root, path)]) == ParsePath(path)
  {
    HandedKeys(root, path);
    GetThrough(root, Parents(path), [LastKey(path)]);
  }

  /** Of two values set at one path only the second counts. */
  lemma SecondSetWins(lodashSet: Lodash, root: Yaml, path: string, first: Yaml, second: Yaml)
    requires Lawful(lodashSet) && Tame(Join(Rest(root, path), ".")) && Plain(Rest(root, path)) && ParentsUnescaped(path)
    requires AfterSet(lodashSet, Some(root), path, first).Ok?
    ensures AfterSet(lodashSet, Some(AfterSet(lodashSet, Some(root), path, first).value), path, second)
            == AfterSet(lodashSet, Some(root), path, second)
  {
    var (keys, newValue) := PathAndValue(lodashSet, root, path, first);
    var once := SetNode(root, keys, newValue).value;
    var rest := UnescapePath(Rest(root, path));
    KeysSplit(root, path);
    SetThenGet(root, keys, newValue, ParsePath(path));
    assert ParsePath(path)[|keys|..] == rest;
    if Missing(root, path) {
      DotsReadBackIff(Rest(root, path));
    }
    assert newValue == Nest(rest, first);
    NestGet(rest, first);
    ParentsDefined(once, path);
    NestSet(rest, first, second);
    SetTwice(root, keys, newValue, rest, second);
  }

  /** Setting the value a path already has changes nothing. */
  lemma SetWhatWasRead(lodashSet: Lodash, root: Yaml, path: string)
    requires ParentsUnescaped(path) && GetIn(root, ParsePath(path)).Some?
    ensures AfterSet(lodashSet, Some(root), path, GetIn(root, ParsePath(path)).value) == Ok(root)
  {
    ParentsDefined(root, path);
    SetWhatIsThere(root, ParsePath(path));
  }

  /** After a successful delete the path gives the default and every other path reads as before. */
  lemma DeleteThenRead(root: Yaml, path: string, q: seq<string>, default: Option<Yaml>)
    requires ParentsUnescaped(path) && AfterDelete(Some(root), path).Ok?
    ensures GetValue(AfterDelete(Some(root), path).value, path, default) == default
    ensures Diverge(ParsePath(path), q) ==> Read(AfterDelete(Some(root), path).value, q) == Read(Some(root), q)
  {
    var keys, rest := UnescapePath(SplitPath(path)[..Reach(root, path)]), UnescapePath(Rest(root, path));
    KeysSplit(root, path);
    DeleteThenGet(root, keys, ParsePath(path));
    EmptyReadsNothing(root, keys, ParsePath(path));
    if Diverge(ParsePath(path), q) {
      EmptyReadsNothing(root, keys, q);
      DeleteThenGet(root, keys, q);
      Apart(keys, rest, q);
      if !Diverge(keys, q) {
        UnescapedParentsLoseNothing(root, path);
        GetThrough(root, keys, q[|keys|..]);
        if GetIn(root, keys).Some? {
          DivergeTail(rest, q[|keys|..]);
          OnlyAlongHides(GetIn(root, keys).value, rest, q[|keys|..]);
        }
      }
    }
  }

  // The empty mapping is written as an empty document, which reads the same below the top.
  lemma EmptyReadsNothing(root: Yaml, keys: seq<string>, q: seq<string>)
    requires keys != [] && q != [] && DeleteNode(root, keys).Ok?
    ensures DeleteNode(root, keys).value == Mapping(map[]) ==> GetIn(DeleteNode(root, keys).value, q).None?
  {
  }

  /** Deleting a key just added to a mapping undoes the set, unless the document was the empty mapping. */
  lemma DeleteUndoesSet(lodashSet: Lodash, root: Yaml, path: string, value: Yaml)
    requires ParentsUnescaped(path) && AfterSet(lodashSet, Some(root), path, value).Ok?
    requires !Missing(root, path) && GetIn(root, ParsePath(path)).None?
    ensures AfterDelete(Some(AfterSet(lodashSet, Some(root), path, value).value), path)
            == Ok(if root == Mapping(map[]) then None else Some(root))
  {
    var once := AfterSet(lodashSet, Some(root), path, value).value;
    var keys := ParsePath(path);
    KeysSplit(root, path);
    assert UnescapePath(SplitPath(path)[..Reach(root, path)]) == keys;
    SetThenGet(root, keys, value, keys);
    ParentsDefined(once, path);
    SetThenDelete(root, keys, value);
  }

  lemma EscapedSlash()
    ensures SplitPath("a~1b/c") == ["a~1b", "c"] && ParsePath("a~1b/c") == ["a/b", "c"]
  {
    assert "a~1b/c" == "a~1b" + ['/'] + "c";
    SplitPlain("c", '/');
    SplitAt("a~1b", '/', "c");
    var s := "a~1b";
    assert s[1..] == "~1b" && s[1..][2..] == "b";
    assert Replace("~1b", '~', '1', '/') == "/b" && Replace(s, '~', '1', '/') == "a/b";
    UnescapeSame("c");
    ReplaceShrinks("a/b", '~', '0', '~');
  }

  /** An escaped parent that exists is not found: setting c below "a/b" drops its other keys. */
  lemma EscapedParentLosesKeys(root: Yaml, key: string)
    requires root.Mapping? && "a~1b" !in root.fields && "a/b" in root.fields && root.fields["a/b"].Mapping?
    requires key != "c" && IsDefined(Child(root.fields["a/b"], key))
    ensures !NothingLost(root, "a~1b/c")
  {
    EscapedSlash();
    var path := "a~1b/c";
    assert Parents(path) == ["a~1b"];
    assert Missing(root, path) && Reach(root, path) == 1;
    assert Rest(root, path) == ["c"];
    assert UnescapePath(SplitPath(path)[..1]) == ["a/b"] && UnescapePath(["c"]) == ["c"] by {
      assert ParsePath(path)[0] == "a/b" && ParsePath(path)[1] == "c";
    }
    assert ["a/b"][1..] == [];
    assert GetIn(root, ["a/b"]) == Some(root.fields["a/b"]);
  }
}
