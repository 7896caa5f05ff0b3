/** The post-renderer that adds image pull secrets to rendered manifests.  Documents are untyped trees; text is left to
    the YAML library.  A result of None is a panic: a failed type assertion. */
module PullSecrets {
  import opened Wrappers
  import opened Sequences

  datatype Key = StrKey(s: string) | OtherKey(text: string)

  // `Secrets` is the typed slice the renderer builds: one mapping with a name each.
  datatype Value =
    | Null
    | Str(s: string)
    | Other(text: string)
    | List(items: seq<Value>)
    | Dict(entries: map<Key, Value>)
    | Secrets(names: seq<string>)

  /** Secret names by registry domain, and the domain an image reference is fetched from, if it parses. */
  datatype Renderer = Renderer(secrets: map<string, string>, domain: string -> Option<string>)

  function Field(v: Value, key: string): Option<Value> {
    if v.Dict? && StrKey(key) in v.entries then Some(v.entries[StrKey(key)]) else None
  }

  function WithField(v: Value, key: string, field: Value): Value
    requires v.Dict?
  {
    Dict(v.entries[StrKey(key) := field])
  }

  // ----- Building a renderer -----

  const INDEX_DOCKER_IO := "index.docker.io"
  const DOCKER_IO := "docker.io"

  function WithProtocol(server: string): string {
    if "https://" <= server || "http://" <= server then server else "https://" + server
  }

  /** The host of a registry server, https unless it says which protocol; `host` is the URL parser. */
  ghost predicate HasHost(host: string -> Option<string>, server: string, h: Option<string>) {
    host(if "https://" <= server || "http://" <= server then server else "https://" + server) == h
  }

  /** The server's secret is for the domain: its host, and docker.io too for the index of Docker Hub. */
  ghost predicate EntersAs(host: string -> Option<string>, server: string, domain: string) {
    HasHost(host, server, Some(domain)) || (domain == "docker.io" && HasHost(host, server, Some("index.docker.io")))
  }

  /** The keys a registry server is entered under. */
  function KeysOf(host: string -> Option<string>, server: string): (keys: set<string>)
    ensures forall domain :: domain in keys <==> EntersAs(host, server, domain)
  {
    match host(WithProtocol(server))
    case None => {}
    case Some(h) => if h == INDEX_DOCKER_IO then {h, DOCKER_IO} else {h}
  }

  /** The secrets after the servers in this order. */
  function Built(host: string -> Option<string>, secrets: map<string, string>, order: seq<string>): map<string, string>
    requires forall s :: s in order ==> s in secrets
  {
    if order == [] then map[]
    else
      var before, server := Built(host, secrets, order[..|order| - 1]), order[|order| - 1];
      before + map k | k in KeysOf(host, server) :: secrets[server]
  }

  function Entered(entries: map<string, string>, host: string, secret: string): map<string, string> {
    if host == INDEX_DOCKER_IO then entries[host := secret][DOCKER_IO := secret] else entries[host := secret]
  }

  // Every server in the list parses.
  ghost predicate AllParse(host: string -> Option<string>, order: seq<string>) {
    forall s :: s in order ==> host(WithProtocol(s)).Some?
  }

  /** The server at i is the last one entered for the domain, with this secret. */
  ghost predicate LastEnteredAt(host: string -> Option<string>, secrets: map<string, string>, order: seq<string>,
                                domain: string, secret: string, i: int)
  {
    && 0 <= i < |order| && EntersAs(host, order[i], domain)
    && order[i] in secrets && secrets[order[i]] == secret
    && forall j :: i < j < |order| ==> !EntersAs(host, order[j], domain)
  }

  ghost predicate LastEntered(host: string -> Option<string>, secrets: map<string, string>, order: seq<string>,
                              domain: string, secret: string)
  {
    exists i :: LastEnteredAt(host, secrets, order, domain, secret, i)
  }

  lemma NextServer(host: string -> Option<string>, secrets: map<string, string>, order: seq<string>, i: nat)
    requires i < |order| && forall s :: s in order ==> s in secrets
    ensures order[i] in secrets && forall s :: s in order[..i + 1] ==> s in secrets
    ensures host(WithProtocol(order[i])).None? ==> !AllParse(host, order)
    ensures host(WithProtocol(order[i])).Some? ==>
      && (AllParse(host, order[..i]) ==> AllParse(host, order[..i + 1]))
      && Built(host, secrets, order[..i + 1])
         == Entered(Built(host, secrets, order[..i]), host(WithProtocol(order[i])).value, secrets[order[i]])
  {
    assert order[i] in order;
    assert order[..i + 1] == order[..i] + [order[i]];
    assert order[..i + 1][..|order[..i + 1]| - 1] == order[..i];
  }

  method WithScheme(server: string) returns (registryServer: string)
    ensures registryServer == WithProtocol(server)
  {
    registryServer := server;
    if !("https://" <= registryServer) && !("http://" <= registryServer) {
      registryServer := "https://" + registryServer;
    }
  }

  method Enter(entries: map<string, string>, host: string, secret: string) returns (result: map<string, string>)
    ensures result == Entered(entries, host, secret)
  {
    result := entries[host := secret];
    if host == INDEX_DOCKER_IO {
      result := result[DOCKER_IO := secret];
    }
  }

  method NewDockerSecretsPostRenderer(host: string -> Option<string>, secrets: map<string, string>, order: seq<string>)
      returns (result: Option<map<string, string>>)
    requires IsListing(secrets.Keys, order)
    ensures result.None? <==> exists s :: s in secrets && HasHost(host, s, None)
    ensures result.Some? ==> result.value == Built(host, secrets, order)
    ensures result.Some? ==> forall d :: d in result.value <==> exists s :: s in secrets && EntersAs(host, s, d)
    ensures result.Some? ==> forall d :: d in result.value ==> LastEntered(host, secrets, order, d, result.value[d])
  {
    var entries: map<string, string> := map[];
    for i := 0 to |order|
      invariant forall s :: s in order[..i] ==> s in secrets
      invariant AllParse(host, order[..i])
      invariant entries == Built(host, secrets, order[..i])
    {
      NextServer(host, secrets, order, i);
      var registryServer := WithScheme(order[i]);
      var u := host(registryServer);
      if u.None? {
        return None;
      }
      entries := Enter(entries, u.value, secrets[order[i]]);
    }
    assert order[..|order|] == order;
    forall d
      ensures d in entries <==> exists s :: s in secrets && EntersAs(host, s, d)
      ensures d in entries ==> LastEntered(host, secrets, order, d, entries[d])
    {
      BuiltFromWriters(host, secrets, order, d);
      if d in entries {
        BuiltFromLast(host, secrets, order, d);
      }
    }
    return Some(entries);
  }

  /** Servers entered for the same domain have the same secret. */
  ghost predicate ServersAgree(host: string -> Option<string>, secrets: map<string, string>) {
    forall s, t, k :: s in secrets && t in secrets && EntersAs(host, s, k) && EntersAs(host, t, k) ==>
      secrets[s] == secrets[t]
  }

  ghost predicate Writes(host: string -> Option<string>, secrets: map<string, string>, order: seq<string>, k: string,
                         secret: string)
  {
    exists s :: s in order && s in secrets && k in KeysOf(host, s) && secrets[s] == secret
  }

  lemma {:induction false} BuiltFromWriters(host: string -> Option<string>, secrets: map<string, string>,
                                            order: seq<string>, k: string)
    requires forall s :: s in order ==> s in secrets
    ensures k in Built(host, secrets, order) ==> Writes(host, secrets, order, k, Built(host, secrets, order)[k])
    ensures (exists s :: s in order && k in KeysOf(host, s)) ==> k in Built(host, secrets, order)
  {
    if order != [] {
      var before, server := order[..|order| - 1], order[|order| - 1];
      BuiltFromWriters(host, secrets, before, k);
      assert server in order && forall s :: s in order ==> s in before || s == server;
      var built := Built(host, secrets, order);
      if k in KeysOf(host, server) {
        assert built[k] == secrets[server];
      } else if k in built {
        assert built[k] == Built(host, secrets, before)[k];
        var s :| s in before && s in secrets && k in KeysOf(host, s) && secrets[s] == built[k];
        assert s in order;
      }
    }
  }

  lemma StillLast(host: string -> Option<string>, secrets: map<string, string>, init: seq<string>, server: string,
                  k: string, secret: string)
    requires LastEntered(host, secrets, init, k, secret) && !EntersAs(host, server, k)
    ensures LastEntered(host, secrets, init + [server], k, secret)
  {
    var i :| LastEnteredAt(host, secrets, init, k, secret, i);
    assert LastEnteredAt(host, secrets, init + [server], k, secret, i);
  }

  lemma NowLast(host: string -> Option<string>, secrets: map<string, string>, init: seq<string>, server: string,
                k: string)
    requires EntersAs(host, server, k) && server in secrets
    ensures LastEntered(host, secrets, init + [server], k, secrets[server])
  {
    assert LastEnteredAt(host, secrets, init + [server], k, secrets[server], |init|);
  }

  lemma BuiltBefore(host: string -> Option<string>, secrets: map<string, string>, order: seq<string>, k: string)
    requires order != [] && forall s :: s in order ==> s in secrets
    requires k in Built(host, secrets, order) && k !in KeysOf(host, order[|order| - 1])
    ensures var before := Built(host, secrets, order[..|order| - 1]);
            k in before && before[k] == Built(host, secrets, order)[k]
  {
  }

  lemma {:induction false} BuiltFromLast(host: string -> Option<string>, secrets: map<string, string>,
                                         order: seq<string>, k: string)
    requires (forall s :: s in order ==> s in secrets) && k in Built(host, secrets, order)
    ensures LastEntered(host, secrets, order, k, Built(host, secrets, order)[k])
  {
    var before, server := order[..|order| - 1], order[|order| - 1];
    var secret := Built(host, secrets, order)[k];
    if k in KeysOf(host, server) {
      LastWriterWins(host, secrets, order, k);
      NowLast(host, secrets, before, server, k);
      assert before + [server] == order;
    } else {
      BuiltBefore(host, secrets, order, k);
      BuiltFromLast(host, secrets, before, k);
      StillLast(host, secrets, before, server, k, secret);
      assert before + [server] == order;
    }
  }

  lemma AgreeingOrders(host: string -> Option<string>, secrets: map<string, string>, a: seq<string>, b: seq<string>)
    requires ServersAgree(host, secrets) && IsListing(secrets.Keys, a) && IsListing(secrets.Keys, b)
    ensures Built(host, secrets, a) == Built(host, secrets, b)
  {
    forall k
      ensures k in Built(host, secrets, a) <==> k in Built(host, secrets, b)
      ensures k in Built(host, secrets, a) ==> Built(host, secrets, a)[k] == Built(host, secrets, b)[k]
    {
      BuiltFromWriters(host, secrets, a, k);
      BuiltFromWriters(host, secrets, b, k);
    }
  }

  lemma LastWriterWins(host: string -> Option<string>, secrets: map<string, string>, order: seq<string>, k: string)
    requires order != [] && (forall s :: s in order ==> s in secrets) && k in KeysOf(host, order[|order| - 1])
    ensures k in Built(host, secrets, order) && Built(host, secrets, order)[k] == secrets[order[|order| - 1]]
  {
  }

  lemma OrderEndingWith(secrets: map<string, string>, last: string) returns (order: seq<string>)
    requires last in secrets
    ensures IsListing(secrets.Keys, order) && order != [] && order[|order| - 1] == last
  {
    var rest := SomeListing(secrets.Keys - {last});
    order := rest + [last];
  }

  lemma DisagreeingOrders(host: string -> Option<string>, secrets: map<string, string>, s: string, t: string, k: string)
      returns (a: seq<string>, b: seq<string>)
    requires s in secrets && t in secrets && k in KeysOf(host, s) && k in KeysOf(host, t) && secrets[s] != secrets[t]
    ensures IsListing(secrets.Keys, a) && IsListing(secrets.Keys, b)
      && Built(host, secrets, a) != Built(host, secrets, b)
  {
    a := OrderEndingWith(secrets, s);
    b := OrderEndingWith(secrets, t);
    LastWriterWins(host, secrets, a, k);
    LastWriterWins(host, secrets, b, k);
  }

  /** Ranging over the secrets in any order builds one renderer. */
  ghost predicate OneRenderer(host: string -> Option<string>, secrets: map<string, string>) {
    forall a, b :: IsListing(secrets.Keys, a) && IsListing(secrets.Keys, b) ==>
      Built(host, secrets, a) == Built(host, secrets, b)
  }

  /** The renderer does not depend on the order Go ranges over the secrets in exactly when servers that come down to one
      host agree on the secret. */
  lemma OneRendererIffServersAgree(host: string -> Option<string>, secrets: map<string, string>)
    ensures ServersAgree(host, secrets) <==> OneRenderer(host, secrets)
  {
    if ServersAgree(host, secrets) {
      forall a, b | IsListing(secrets.Keys, a) && IsListing(secrets.Keys, b)
        ensures Built(host, secrets, a) == Built(host, secrets, b)
      {
        AgreeingOrders(host, secrets, a, b);
      }
    } else {
      var s, t, k :| s in secrets && t in secrets && EntersAs(host, s, k) && EntersAs(host, t, k)
        && secrets[s] != secrets[t];
      var a, b := DisagreeingOrders(host, secrets, s, t, k);
    }
  }

  // ----- Names -----

  /** The name of an entry of imagePullSecrets, if it is a string. */
  function NameOf(secret: Value): seq<string> {
    match Field(secret, "name")
    case Some(Str(n)) => [n]
    case _ => []
  }

  /** The secret a container needs, if its image comes from a known registry. */
  function SecretFor(r: Renderer, container: Value): seq<string> {
    match Field(container, "image")
    case Some(Str(image)) =>
      var domain := r.domain(image);
      if domain.Some? && domain.value in r.secrets then [r.secrets[domain.value]] else []
    case _ => []
  }

  // ----- One pod spec -----

  /** Every entry of imagePullSecrets, if there are any, is a mapping. */
  predicate ReadableSecrets(podSpec: Value) {
    match Field(podSpec, "imagePullSecrets")
    case None => true
    case Some(List(items)) => forall s :: s in items ==> s.Dict?
    case _ => false
  }

  function Containers(podSpec: Value): Option<seq<Value>> {
    match Field(podSpec, "containers")
    case Some(List(items)) => Some(items)
    case _ => None
  }

  function ExistingNames(podSpec: Value): seq<string> {
    match Field(podSpec, "imagePullSecrets")
    case Some(List(items)) => FlatMap(NameOf, items)
    case _ => []
  }

  /** The names after an update: the old ones in order, then what the containers need and is missing. */
  function PullNames(r: Renderer, podSpec: Value): seq<string>
    requires Containers(podSpec).Some?
  {
    AddMissing(ExistingNames(podSpec), FlatMap(Needs(r), Containers(podSpec).value))
  }

  function Needs(r: Renderer): Value -> seq<string> {
    container => SecretFor(r, container)
  }

  function Updated(r: Renderer, podSpec: Value): Option<Value>
    requires podSpec.Dict?
  {
    if Containers(podSpec).None? then Some(podSpec)
    else if !ReadableSecrets(podSpec) then None
    else if PullNames(r, podSpec) == [] then Some(podSpec)
    else Some(WithField(podSpec, "imagePullSecrets", Secrets(PullNames(r, podSpec))))
  }

  method ReadExisting(podSpec: Value) returns (panicked: bool, names: seq<string>)
    ensures panicked == !ReadableSecrets(podSpec)
    ensures !panicked ==> names == ExistingNames(podSpec)
  {
    names := [];
    var existing := Field(podSpec, "imagePullSecrets");
    if existing.None? {
      return false, [];
    }
    if !existing.value.List? {
      return true, [];
    }
    var items := existing.value.items;
    for i := 0 to |items|
      invariant forall j :: 0 <= j < i ==> items[j].Dict?
      invariant names == FlatMap(NameOf, items[..i])
    {
      if !items[i].Dict? {
        assert items[i] in items;
        return true, names;
      }
      assert items[..i + 1] == items[..i] + [items[i]];
      FlatMapSnoc(NameOf, items[..i], items[i]);
      var name := Field(items[i], "name");
      if name.Some? && name.value.Str? {
        names := names + [name.value.s];
      }
    }
    assert items[..|items|] == items;
    return false, names;
  }

  /** The body of the loop over the containers. */
  method AddSecretFor(r: Renderer, container: Value, imagePullSecrets: seq<string>) returns (result: seq<string>)
    ensures result == AddMissing(imagePullSecrets, SecretFor(r, container))
  {
    result := imagePullSecrets;
    if container.Dict? {
      var image := Field(container, "image");
      if image.Some? && image.value.Str? {
        var imageDomain := r.domain(image.value.s);
        if imageDomain.Some? && imageDomain.value in r.secrets {
          var secretName := r.secrets[imageDomain.value];
          if secretName !in imagePullSecrets {
            result := result + [secretName];
          }
        }
      }
    }
  }

  lemma NextContainer(r: Renderer, existing: seq<string>, containers: seq<Value>, i: nat)
    requires i < |containers|
    ensures AddMissing(existing, FlatMap(Needs(r), containers[..i + 1]))
         == AddMissing(AddMissing(existing, FlatMap(Needs(r), containers[..i])), SecretFor(r, containers[i]))
  {
    assert containers[..i + 1] == containers[..i] + [containers[i]];
    FlatMapSnoc(Needs(r), containers[..i], containers[i]);
    AddMissingSnoc(existing, FlatMap(Needs(r), containers[..i]), SecretFor(r, containers[i]));
  }

  method UpdatePodSpecWithPullSecrets(r: Renderer, podSpec: Value) returns (result: Option<Value>)
    requires podSpec.Dict?
    ensures result == Updated(r, podSpec)
    ensures result.None? <==> CannotRead(podSpec)
    ensures FromText(podSpec) && result.Some? ==> IsRendering(r, podSpec, Reparse(result.value))
  {
    CannotReadPanics(podSpec);
    if FromText(podSpec) && Updated(r, podSpec).Some? {
      RenderedNames(r, podSpec);
    }
    var containersObject := Field(podSpec, "containers");
    if containersObject.None? || !containersObject.value.List? {
      return Some(podSpec);
    }
    var containers := containersObject.value.items;
    var panicked, imagePullSecrets := ReadExisting(podSpec);
    if panicked {
      return None;
    }
    var existing := imagePullSecrets;
    for i := 0 to |containers|
      invariant imagePullSecrets == AddMissing(existing, FlatMap(Needs(r), containers[..i]))
    {
      NextContainer(r, existing, containers, i);
      imagePullSecrets := AddSecretFor(r, containers[i], imagePullSecrets);
    }
    assert containers[..|containers|] == containers;
    if |imagePullSecrets| > 0 {
      return Some(WithField(podSpec, "imagePullSecrets", Secrets(imagePullSecrets)));
    }
    return Some(podSpec);
  }

  // ----- Finding the pod specs -----

  function PodSpecPath(kind: string): Option<seq<string>> {
    if kind == "Pod" then Some(["spec"])
    else if kind in {"DaemonSet", "Deployment", "Job", "ReplicaSet", "ReplicationController", "StatefulSet"} then
      Some(["spec", "template", "spec"])
    else if kind == "PodTemplate" then Some(["template", "spec"])
    else if kind == "CronJob" then Some(["spec", "jobTemplate", "spec", "template", "spec"])
    else None
  }

  /** The mapping a path of keys leads to through mappings only. */
  function MapAt(v: Value, keys: seq<string>): (r: Option<Value>)
    ensures keys != [] && r.Some? ==> r.value.Dict?
  {
    if keys == [] then Some(v)
    else
      var field := Field(v, keys[0]);
      if field.None? || !field.value.Dict? then None else MapAt(field.value, keys[1..])
  }

  // The same mapping changed in place.
  function PutAt(v: Value, keys: seq<string>, changed: Value): (r: Value)
    requires MapAt(v, keys).Some?
    ensures keys != [] ==> v.Dict? && r.Dict?
  {
    if keys == [] then changed
    else WithField(v, keys[0], PutAt(Field(v, keys[0]).value, keys[1..], changed))
  }

  lemma {:induction false} MapAtSnoc(v: Value, keys: seq<string>, key: string)
    ensures MapAt(v, keys + [key]) ==
            if MapAt(v, keys).None? then None
            else MapAt(MapAt(v, keys).value, [key])
  {
    if keys == [] {
      assert keys + [key] == [key];
    } else {
      assert (keys + [key])[1..] == keys[1..] + [key];
      var field := Field(v, keys[0]);
      if field.Some? && field.value.Dict? {
        MapAtSnoc(field.value, keys[1..], key);
      }
    }
  }

  lemma {:induction false} MapAtBroken(v: Value, keys: seq<string>, k: nat)
    requires k <= |keys| && MapAt(v, keys[..k]).None?
    ensures MapAt(v, keys).None?
    decreases |keys| - k
  {
    if k < |keys| {
      assert keys[..k + 1] == keys[..k] + [keys[k]];
      MapAtSnoc(v, keys[..k], keys[k]);
      MapAtBroken(v, keys, k + 1);
    } else {
      assert keys[..k] == keys;
    }
  }

  method GetMapForKeys(keys: seq<string>, m: Value) returns (found: Option<Value>)
    requires m.Dict?
    ensures found == MapAt(m, keys)
  {
    var current := m;
    for i := 0 to |keys|
      invariant MapAt(m, keys[..i]) == Some(current)
    {
      assert keys[..i + 1] == keys[..i] + [keys[i]];
      MapAtSnoc(m, keys[..i], keys[i]);
      assert [keys[i]][1..] == [];
      var next := Field(current, keys[i]);
      if next.None? || !next.value.Dict? {
        MapAtBroken(m, keys, i + 1);
        return None;
      }
      current := next.value;
    }
    assert keys[..|keys|] == keys;
    return Some(current);
  }

  /** What a document is to the renderer. */
  datatype Role = Untouched | Nested(items: seq<Value>) | HasPodSpec(path: seq<string>)

  function RoleOf(v: Value): (role: Role)
    ensures role.Nested? ==> Field(v, "items") == Some(List(role.items))
    ensures role.HasPodSpec? ==> role.path != [] && MapAt(v, role.path).Some?
    ensures role.HasPodSpec? ==>
      exists kind :: Field(v, "kind") == Some(Str(kind)) && PodSpecPath(kind) == Some(role.path)
  {
    match Field(v, "kind")
    case Some(Str(kind)) =>
      (match Field(v, "items")
       case Some(List(items)) => Nested(items)
       case Some(_) => Untouched
       case None =>
         var path := PodSpecPath(kind);
         if path.None? || MapAt(v, path.value).None? then Untouched else HasPodSpec(path.value))
    case _ => Untouched
  }

  function ProcessResource(r: Renderer, v: Value): Option<Value>
    decreases v, 0
  {
    match RoleOf(v)
    case Untouched => Some(v)
    case Nested(items) =>
      var processed := ProcessList(r, items);
      if processed.None? then None else Some(WithField(v, "items", List(processed.value)))
    case HasPodSpec(path) =>
      var updated := Updated(r, MapAt(v, path).value);
      if updated.None? then None else Some(PutAt(v, path, updated.value))
  }

  function ProcessList(r: Renderer, list: seq<Value>): (out: Option<seq<Value>>)
    ensures out.Some? ==> |out.value| == |list|
    decreases list, 1
  {
    if list == [] then Some([])
    else
      var head, tail := ProcessResource(r, list[0]), ProcessList(r, list[1..]);
      if head.None? || tail.None? then None else Some([head.value] + tail.value)
  }

  method ProcessResourceList(r: Renderer, resourceList: seq<Value>) returns (out: Option<seq<Value>>)
    ensures out == ProcessList(r, resourceList)
    decreases resourceList
  {
    var done := [];
    for i := 0 to |resourceList|
      invariant ProcessList(r, resourceList[..i]) == Some(done)
    {
      var resource := resourceList[i];
      assert resourceList[..i + 1] == resourceList[..i] + [resource];
      ProcessListSnoc(r, resourceList[..i], resource);
      var processed := Some(resource);
      var kindValue := Field(resource, "kind");
      if kindValue.Some? && kindValue.value.Str? {
        var items := Field(resource, "items");
        if items.Some? {
          if items.value.List? {
            var nested := ProcessResourceList(r, items.value.items);
            processed := if nested.None? then None else Some(WithField(resource, "items", List(nested.value)));
          }
        } else {
          var path := PodSpecPath(kindValue.value.s);
          if path.Some? {
            var podSpec := GetMapForKeys(path.value, resource);
            if podSpec.Some? {
              var updated := UpdatePodSpecWithPullSecrets(r, podSpec.value);
              processed := if updated.None? then None else Some(PutAt(resource, path.value, updated.value));
            }
          }
        }
      }
      assert processed == ProcessResource(r, resource);
      if processed.None? {
        ProcessListStops(r, resourceList, i);
        return None;
      }
      done := done + [processed.value];
    }
    assert resourceList[..|resourceList|] == resourceList;
    return Some(done);
  }

  lemma ProcessOne(r: Renderer, v: Value)
    ensures ProcessList(r, [v]) == if ProcessResource(r, v).None? then None else Some([ProcessResource(r, v).value])
  {
    assert ProcessList(r, [v][1..]) == Some([]);
    if ProcessResource(r, v).Some? {
      assert ProcessList(r, [v]).value == [ProcessResource(r, v).value];
    }
  }

  lemma {:induction false} ProcessListSnoc(r: Renderer, list: seq<Value>, last: Value)
    ensures ProcessList(r, list + [last]) ==
            if ProcessList(r, list).None? || ProcessResource(r, last).None? then None
            else Some(ProcessList(r, list).value + [ProcessResource(r, last).value])
  {
    if list == [] {
      assert list + [last] == [last];
      ProcessOne(r, last);
      if ProcessResource(r, last).Some? {
        assert ProcessList(r, list).value + [ProcessResource(r, last).value] == [ProcessResource(r, last).value];
      }
    } else {
      ProcessListSnoc(r, list[1..], last);
      assert (list + [last])[1..] == list[1..] + [last] && (list + [last])[0] == list[0];
      var head, tail, end := ProcessResource(r, list[0]), ProcessList(r, list[1..]), ProcessResource(r, last);
      if head.Some? && tail.Some? && end.Some? {
        assert [head.value] + (tail.value + [end.value]) == ([head.value] + tail.value) + [end.value];
      }
    }
  }

  lemma {:induction false} ProcessListStops(r: Renderer, list: seq<Value>, k: nat)
    requires k < |list| && ProcessResource(r, list[k]).None?
    ensures ProcessList(r, list).None?
  {
    if k > 0 {
      ProcessListStops(r, list[1..], k - 1);
    }
  }

  // ----- Run -----

  // What encoding and decoding again makes of a value: the typed slice becomes a list like any other.
  function Reparse(v: Value): Value {
    match v
    case List(items) => List(seq(|items|, i requires 0 <= i < |items| => Reparse(items[i])))
    case Dict(entries) => Dict(map k | k in entries :: Reparse(entries[k]))
    case Secrets(names) => List(seq(|names|, i requires 0 <= i < |names| => Dict(map[StrKey("name") := Str(names[i])])))
    case _ => v
  }

  function ReparseAll(list: seq<Value>): seq<Value> {
    seq(|list|, i requires 0 <= i < |list| => Reparse(list[i]))
  }

  /** A value that came from text. */
  predicate FromText(v: Value) {
    match v
    case List(items) => forall x | x in items :: FromText(x)
    case Dict(entries) => forall k | k in entries :: FromText(entries[k])
    case Secrets(_) => false
    case _ => true
  }

  /** `Same` hands the input back without reading it. */
  datatype Outcome = Same | ParseError | Panic | Rendered(docs: seq<Value>)

  function AfterRun(r: Renderer, decoded: Option<seq<Value>>): Outcome {
    if r.secrets == map[] then Same
    else if decoded.None? then ParseError
    else
      var out := ProcessList(r, decoded.value);
      if out.None? then Panic else Rendered(ReparseAll(out.value))
  }

  method Run(r: Renderer, decoded: Option<seq<Value>>) returns (outcome: Outcome)
    ensures outcome == AfterRun(r, decoded)
    ensures ParsesTo(decoded) ==> IsOutcome(r, decoded, outcome)
  {
    if ParsesTo(decoded) {
      RunMeans(r, decoded);
    }
    if |r.secrets| == 0 {
      return Same;
    }
    if decoded.None? {
      return ParseError;
    }
    var out := ProcessResourceList(r, decoded.value);
    if out.None? {
      return Panic;
    }
    return Rendered(ReparseAll(out.value));
  }

  // ----- Putting back -----

  lemma {:induction false} PutThenGet(v: Value, keys: seq<string>, changed: Value)
    requires MapAt(v, keys).Some? && changed.Dict?
    ensures MapAt(PutAt(v, keys, changed), keys) == Some(changed)
  {
    if keys != [] {
      PutThenGet(Field(v, keys[0]).value, keys[1..], changed);
    }
  }

  lemma {:induction false} PutTwice(v: Value, keys: seq<string>, once: Value, twice: Value)
    requires MapAt(v, keys).Some? && once.Dict?
    ensures MapAt(PutAt(v, keys, once), keys).Some? && PutAt(PutAt(v, keys, once), keys, twice) == PutAt(v, keys, twice)
  {
    PutThenGet(v, keys, once);
    if keys != [] {
      var inner := Field(v, keys[0]).value;
      PutTwice(inner, keys[1..], once, twice);
      var k := StrKey(keys[0]);
      assert v.entries[k := PutAt(inner, keys[1..], once)][k := PutAt(inner, keys[1..], twice)]
          == v.entries[StrKey(keys[0]) := PutAt(inner, keys[1..], twice)];
    }
  }

  lemma {:induction false} PutSame(v: Value, keys: seq<string>)
    requires MapAt(v, keys).Some?
    ensures PutAt(v, keys, MapAt(v, keys).value) == v
  {
    if keys != [] {
      PutSame(Field(v, keys[0]).value, keys[1..]);
      assert v.entries[StrKey(keys[0]) := v.entries[StrKey(keys[0])]] == v.entries;
    }
  }

  lemma RoleKept(v: Value, path: seq<string>, changed: Value)
    requires RoleOf(v) == HasPodSpec(path) && changed.Dict?
    ensures RoleOf(PutAt(v, path, changed)) == HasPodSpec(path) && MapAt(PutAt(v, path, changed), path) == Some(changed)
  {
    PutThenGet(v, path, changed);
    assert path[0] == "spec" || path[0] == "template";
    assert path[0] != "kind" && path[0] != "items" by {
      assert "spec"[0] != "kind"[0] && "spec"[0] != "items"[0];
      assert "template"[0] != "kind"[0] && "template"[0] != "items"[0];
    }
    var w := PutAt(v, path, changed);
    assert Field(w, "kind") == Field(v, "kind") && Field(w, "items") == Field(v, "items");
  }

  lemma NestedKept(v: Value, items: seq<Value>, changed: seq<Value>)
    requires RoleOf(v) == Nested(items)
    ensures RoleOf(WithField(v, "items", List(changed))) == Nested(changed)
  {
    assert "kind"[0] != "items"[0];
  }

  // ----- The pod specs of a document, in order -----

  function PodSpecs(v: Value): seq<Value>
    decreases v, 0
  {
    match RoleOf(v)
    case Untouched => []
    case Nested(items) => PodSpecsOf(items)
    case HasPodSpec(path) => [MapAt(v, path).value]
  }

  function PodSpecsOf(list: seq<Value>): (specs: seq<Value>)
    decreases list, 1
  {
    if list == [] then [] else PodSpecs(list[0]) + PodSpecsOf(list[1..])
  }

  predicate Panics(podSpec: Value) {
    Containers(podSpec).Some? && !ReadableSecrets(podSpec)
  }

  ghost predicate EachUpdated(r: Renderer, specs: seq<Value>, out: seq<Value>) {
    |out| == |specs| && forall i :: 0 <= i < |specs| ==> specs[i].Dict? && Updated(r, specs[i]) == Some(out[i])
  }

  lemma {:induction false} ResourceUpdatesPodSpecs(r: Renderer, v: Value)
    ensures ProcessResource(r, v).None? <==> exists p :: p in PodSpecs(v) && Panics(p)
    ensures ProcessResource(r, v).Some? ==> EachUpdated(r, PodSpecs(v), PodSpecs(ProcessResource(r, v).value))
    decreases v, 0
  {
    match RoleOf(v)
    case Untouched =>
    case Nested(items) =>
      UpdatesPodSpecs(r, items);
      if ProcessList(r, items).Some? {
        NestedKept(v, items, ProcessList(r, items).value);
      }
    case HasPodSpec(path) =>
      var p := MapAt(v, path).value;
      assert p in PodSpecs(v);
      if Updated(r, p).Some? {
        RoleKept(v, path, Updated(r, p).value);
      }
  }

  /** The renderer panics exactly when some pod spec with containers has pull secrets it cannot read; otherwise the pod
      specs of the output are those of the input, each updated, in the same order. */
  lemma {:induction false} UpdatesPodSpecs(r: Renderer, list: seq<Value>)
    ensures ProcessList(r, list).None? <==> exists p :: p in PodSpecsOf(list) && Panics(p)
    ensures ProcessList(r, list).Some? ==> EachUpdated(r, PodSpecsOf(list), PodSpecsOf(ProcessList(r, list).value))
    decreases list, 1
  {
    if list != [] {
      ResourceUpdatesPodSpecs(r, list[0]);
      UpdatesPodSpecs(r, list[1..]);
      assert forall p :: p in PodSpecsOf(list) <==> p in PodSpecs(list[0]) || p in PodSpecsOf(list[1..]);
    }
  }

  // ----- Nothing else changes -----

  function WithoutSecrets(podSpec: Value): Value
    requires podSpec.Dict?
  {
    Dict(podSpec.entries - {StrKey("imagePullSecrets")})
  }

  /** The document with the pull secrets of its pod specs taken out. */
  function Erase(v: Value): Value
    decreases v, 0
  {
    match RoleOf(v)
    case Untouched => v
    case Nested(items) => WithField(v, "items", List(EraseAll(items)))
    case HasPodSpec(path) => PutAt(v, path, WithoutSecrets(MapAt(v, path).value))
  }

  function EraseAll(list: seq<Value>): seq<Value>
    decreases list, 1
  {
    if list == [] then [] else [Erase(list[0])] + EraseAll(list[1..])
  }

  lemma PodSpecChangesOnlySecrets(v: Value, path: seq<string>, u: Value)
    requires RoleOf(v) == HasPodSpec(path) && u.Dict? && WithoutSecrets(u) == WithoutSecrets(MapAt(v, path).value)
    ensures Erase(PutAt(v, path, u)) == Erase(v)
  {
    RoleKept(v, path, u);
    PutTwice(v, path, u, WithoutSecrets(u));
  }

  lemma UpdateChangesOnlySecrets(r: Renderer, p: Value)
    requires p.Dict? && Updated(r, p).Some?
    ensures Updated(r, p).value.Dict? && WithoutSecrets(Updated(r, p).value) == WithoutSecrets(p)
  {
  }

  lemma {:induction false} ResourceChangesOnlySecrets(r: Renderer, v: Value)
    requires ProcessResource(r, v).Some?
    ensures Erase(ProcessResource(r, v).value) == Erase(v)
    decreases v, 0
  {
    match RoleOf(v)
    case Untouched =>
    case Nested(items) =>
      var out := ProcessList(r, items).value;
      ChangesOnlySecrets(r, items);
      NestedKept(v, items, out);
      assert v.entries[StrKey("items") := List(out)][StrKey("items") := List(EraseAll(out))]
          == v.entries[StrKey("items") := List(EraseAll(out))];
    case HasPodSpec(path) =>
      UpdateChangesOnlySecrets(r, MapAt(v, path).value);
      PodSpecChangesOnlySecrets(v, path, Updated(r, MapAt(v, path).value).value);
  }

  /** Apart from the pull secrets of the pod specs, every document is as it was. */
  lemma {:induction false} ChangesOnlySecrets(r: Renderer, list: seq<Value>)
    requires ProcessList(r, list).Some?
    ensures EraseAll(ProcessList(r, list).value) == EraseAll(list)
    decreases list, 1
  {
    if list != [] {
      ResourceChangesOnlySecrets(r, list[0]);
      ChangesOnlySecrets(r, list[1..]);
      var out := ProcessList(r, list).value;
      assert out[1..] == ProcessList(r, list[1..]).value;
    }
  }

  // ----- Encoding and decoding again -----

  lemma {:induction false} TextStays(v: Value)
    requires FromText(v)
    ensures Reparse(v) == v
  {
    match v
    case List(items) =>
      forall i | 0 <= i < |items| ensures Reparse(items[i]) == items[i] {
        TextStays(items[i]);
      }
    case Dict(entries) =>
      forall k | k in entries ensures Reparse(entries[k]) == entries[k] {
        TextStays(entries[k]);
      }
      assert (map k | k in entries :: Reparse(entries[k])) == entries;
    case _ =>
  }

  lemma ReparseField(v: Value, key: string, field: Value)
    requires FromText(v) && v.Dict?
    ensures Reparse(WithField(v, key, field)) == WithField(v, key, Reparse(field))
  {
    forall k | k in v.entries ensures Reparse(v.entries[k]) == v.entries[k] {
      TextStays(v.entries[k]);
    }
    var changed := v.entries[StrKey(key) := field];
    assert (map k | k in changed :: Reparse(changed[k])) == v.entries[StrKey(key) := Reparse(field)];
  }

  lemma {:induction false} ReparsePut(v: Value, keys: seq<string>, changed: Value)
    requires FromText(v) && MapAt(v, keys).Some?
    ensures Reparse(PutAt(v, keys, changed)) == PutAt(v, keys, Reparse(changed))
  {
    if keys != [] {
      ReparsePut(Field(v, keys[0]).value, keys[1..], changed);
      ReparseField(v, keys[0], PutAt(Field(v, keys[0]).value, keys[1..], changed));
    }
  }

  lemma {:induction false} TextInside(v: Value, keys: seq<string>)
    requires FromText(v) && MapAt(v, keys).Some?
    ensures FromText(MapAt(v, keys).value)
  {
    if keys != [] {
      TextInside(Field(v, keys[0]).value, keys[1..]);
    }
  }

  function Named(n: string): Value {
    Dict(map[StrKey("name") := Str(n)])
  }

  lemma {:induction false} NamesReadBack(names: seq<string>)
    ensures FlatMap(NameOf, Map(Named, names)) == names
  {
    if names != [] {
      NamesReadBack(names[1..]);
      assert Map(Named, names)[1..] == Map(Named, names[1..]);
      assert NameOf(Named(names[0])) == [names[0]];
    }
  }

  lemma SecretsReparsed(names: seq<string>)
    ensures Reparse(Secrets(names)) == List(Map(Named, names))
  {
    assert Reparse(Secrets(names)).items == Map(Named, names);
  }

  lemma PullNamesSettle(r: Renderer, p: Value, q: Value)
    requires Containers(p).Some? && Containers(q) == Containers(p) && ExistingNames(q) == PullNames(r, p)
    ensures PullNames(r, q) == PullNames(r, p)
  {
    var wanted := FlatMap(Needs(r), Containers(p).value);
    forall x | x in wanted ensures x in PullNames(r, p) {
      AddMissingHas(ExistingNames(p), wanted, x);
    }
    AddMissingNothing(PullNames(r, p), wanted);
  }

  lemma ListedNames(p: Value, names: seq<string>)
    requires p.Dict?
    ensures var q := WithField(p, "imagePullSecrets", List(Map(Named, names)));
            ExistingNames(q) == names && ReadableSecrets(q) && Containers(q) == Containers(p)
  {
    NamesReadBack(names);
    assert "containers"[0] != "imagePullSecrets"[0];
  }

  lemma SetTwice(v: Value, key: string, once: Value, twice: Value)
    requires v.Dict?
    ensures WithField(WithField(v, key, once), key, twice) == WithField(v, key, twice)
  {
    assert v.entries[StrKey(key) := once][StrKey(key) := twice] == v.entries[StrKey(key) := twice];
  }

  /** Updating an updated and reparsed pod spec gives it back. */
  lemma PodSpecSettles(r: Renderer, p: Value)
    requires FromText(p) && p.Dict? && Updated(r, p).Some?
    ensures var q := Reparse(Updated(r, p).value);
            q.Dict? && Updated(r, q).Some? && Updated(r, q).value.Dict? && Reparse(Updated(r, q).value) == q
  {
    TextStays(p);
    if Containers(p).Some? && PullNames(r, p) != [] {
      var key, names := "imagePullSecrets", PullNames(r, p);
      var listed := List(Map(Named, names));
      var q := WithField(p, key, listed);
      ReparseField(p, key, Secrets(names));
      SecretsReparsed(names);
      ListedNames(p, names);
      PullNamesSettle(r, p, q);
      SetTwice(p, key, listed, Secrets(names));
    }
  }

  // ----- What a rendered pod spec says -----

  /** The secret carries the name n. */
  ghost predicate HasName(secret: Value, n: string) {
    secret.Dict? && StrKey("name") in secret.entries && secret.entries[StrKey("name")] == Str(n)
  }

  /** The image of the container is fetched from a domain whose secret is n. */
  ghost predicate NeedsSecret(r: Renderer, container: Value, n: string) {
    && container.Dict? && StrKey("image") in container.entries
    && var image := container.entries[StrKey("image")];
       image.Str? && var domain := r.domain(image.s);
                     domain.Some? && domain.value in r.secrets && r.secrets[domain.value] == n
  }

  /** The entry of a pod spec under a key that holds a list. */
  ghost predicate HasList(podSpec: Value, key: string, items: seq<Value>) {
    podSpec.Dict? && StrKey(key) in podSpec.entries && podSpec.entries[StrKey(key)] == List(items)
  }

  /** These are the names of the old secrets that have one, in order; `kept` says where they were. */
  ghost predicate KeepsNames(podSpec: Value, names: seq<string>, kept: seq<nat>) {
    && Increasing(kept) && |kept| == |names|
    && (kept != [] ==> exists secrets :: HasList(podSpec, "imagePullSecrets", secrets))
    && forall secrets :: HasList(podSpec, "imagePullSecrets", secrets) ==>
         && (forall j :: 0 <= j < |kept| ==> kept[j] < |secrets| && HasName(secrets[kept[j]], names[j]))
         && forall i: nat, n :: i < |secrets| && HasName(secrets[i], n) ==> i in kept
  }

  /** These are the secrets needed that were missing, each once and in the order of the containers; `added` says which
      container is the first to need each. */
  ghost predicate AddsNames(r: Renderer, containers: seq<Value>, existing: seq<string>, missing: seq<string>,
                            added: seq<nat>)
  {
    && Increasing(added) && |added| == |missing|
    && (forall j :: 0 <= j < |missing| ==> missing[j] !in existing && missing[j] !in missing[..j])
    && (forall j :: 0 <= j < |missing| ==>
          added[j] < |containers| && IsFirstToNeed(r, containers, added[j], missing[j]))
    && forall c, n :: c in containers && NeedsSecret(r, c, n) ==> n in existing || n in missing
  }

  ghost predicate IsFirstToNeed(r: Renderer, containers: seq<Value>, k: nat, n: string)
    requires k < |containers|
  {
    NeedsSecret(r, containers[k], n) && forall i :: 0 <= i < k ==> !NeedsSecret(r, containers[i], n)
  }

  /** The pod spec q is p with these pull secrets, and p itself if there are none. */
  ghost predicate WithNames(p: Value, q: Value, names: seq<string>) {
    && p.Dict? && q.Dict? && (names == [] ==> q == p)
    && (forall k :: k != StrKey("imagePullSecrets") ==> (k in q.entries <==> k in p.entries))
    && (forall k :: k in p.entries && k != StrKey("imagePullSecrets") ==>
          k in q.entries && q.entries[k] == p.entries[k])
    && (names != [] ==> exists secrets :: HasList(q, "imagePullSecrets", secrets) && AreNamed(secrets, names))
  }

  ghost predicate AreNamed(secrets: seq<Value>, names: seq<string>) {
    |secrets| == |names| && forall i :: 0 <= i < |names| ==> secrets[i] == Dict(map[StrKey("name") := Str(names[i])])
  }

  /** What becomes of a pod spec. */
  ghost predicate IsRendering(r: Renderer, p: Value, q: Value) {
    if exists containers :: HasList(p, "containers", containers) then
      exists containers, existing, missing, kept, added ::
        RendersWith(r, p, q, containers, existing, missing, kept, added)
    else q == p
  }

  ghost predicate RendersWith(r: Renderer, p: Value, q: Value, containers: seq<Value>, existing: seq<string>,
                              missing: seq<string>, kept: seq<nat>, added: seq<nat>)
  {
    && HasList(p, "containers", containers) && WithNames(p, q, existing + missing)
    && KeepsNames(p, existing, kept) && AddsNames(r, containers, existing, missing, added)
  }

  lemma NameOfMeans(secret: Value, n: string)
    ensures |NameOf(secret)| <= 1
    ensures HasName(secret, n) <==> NameOf(secret) == [n]
  {
  }

  lemma NamedAt(items: seq<Value>) returns (kept: seq<nat>)
    ensures Increasing(kept) && |kept| == |FlatMap(NameOf, items)|
    ensures forall j :: 0 <= j < |kept| ==> kept[j] < |items| && HasName(items[kept[j]], FlatMap(NameOf, items)[j])
    ensures forall i: nat, n :: i < |items| && HasName(items[i], n) ==> i in kept
  {
    forall s ensures |NameOf(s)| <= 1 {
      NameOfMeans(s, "");
    }
    kept := PickedInOrder(NameOf, items);
    forall j | 0 <= j < |kept| ensures kept[j] < |items| && HasName(items[kept[j]], FlatMap(NameOf, items)[j]) {
      NameOfMeans(items[kept[j]], FlatMap(NameOf, items)[j]);
    }
    forall i: nat, n | i < |items| && HasName(items[i], n) ensures i in kept {
      NameOfMeans(items[i], n);
    }
  }

  lemma OldNames(p: Value) returns (kept: seq<nat>)
    requires p.Dict? && ReadableSecrets(p)
    ensures KeepsNames(p, ExistingNames(p), kept)
  {
    match Field(p, "imagePullSecrets")
    case Some(List(items)) =>
      kept := NamedAt(items);
      assert HasList(p, "imagePullSecrets", items);
    case _ =>
      kept := [];
  }

  lemma NeedsMeans(r: Renderer, c: Value, n: string)
    ensures |Needs(r)(c)| <= 1
    ensures n in Needs(r)(c) <==> NeedsSecret(r, c, n)
    ensures NeedsSecret(r, c, n) <==> Needs(r)(c) == [n]
  {
  }

  lemma WantedMeans(r: Renderer, containers: seq<Value>, n: string)
    ensures n in FlatMap(Needs(r), containers) <==> exists c :: c in containers && NeedsSecret(r, c, n)
  {
    InFlatMap(Needs(r), containers, n);
    forall c ensures n in Needs(r)(c) <==> NeedsSecret(r, c, n) {
      NeedsMeans(r, c, n);
    }
  }

  /** The container a wanted secret is first needed by. */
  lemma FirstNeeding(r: Renderer, containers: seq<Value>, ks: seq<nat>, n: string)
    requires var wanted := FlatMap(Needs(r), containers); Picks(Needs(r), containers, ks, wanted) && n in wanted
    ensures var k := ks[FirstIndex(FlatMap(Needs(r), containers), n)];
            k < |containers| && IsFirstToNeed(r, containers, k, n)
  {
    var wanted := FlatMap(Needs(r), containers);
    FirstPicked(Needs(r), containers, ks, wanted, n);
    var k := ks[FirstIndex(wanted, n)];
    NeedsMeans(r, containers[k], n);
    forall i | 0 <= i < k ensures !NeedsSecret(r, containers[i], n) {
      NeedsMeans(r, containers[i], n);
    }
  }

  lemma AtMostOneEach(r: Renderer, containers: seq<Value>) returns (ks: seq<nat>)
    ensures Picks(Needs(r), containers, ks, FlatMap(Needs(r), containers))
  {
    forall c ensures |Needs(r)(c)| <= 1 {
      NeedsMeans(r, c, "");
    }
    ks := PickedInOrder(Needs(r), containers);
  }

  lemma FirstContainers(r: Renderer, containers: seq<Value>, names: seq<string>) returns (first: seq<nat>)
    requires AsFirstWanted(FlatMap(Needs(r), containers), names)
    ensures |first| == |names| && Increasing(first)
    ensures forall j :: 0 <= j < |names| ==>
      first[j] < |containers| && IsFirstToNeed(r, containers, first[j], names[j])
  {
    var wanted := FlatMap(Needs(r), containers);
    var ks := AtMostOneEach(r, containers);
    first := seq(|names|, j requires 0 <= j < |names| => ks[FirstIndex(wanted, names[j])]);
    forall j | 0 <= j < |names| ensures first[j] < |containers| && IsFirstToNeed(r, containers, first[j], names[j]) {
      FirstNeeding(r, containers, ks, names[j]);
    }
  }

  lemma NewNames(r: Renderer, p: Value) returns (missing: seq<string>, added: seq<nat>)
    requires Containers(p).Some?
    ensures PullNames(r, p) == ExistingNames(p) + missing
    ensures AddsNames(r, Containers(p).value, ExistingNames(p), missing, added)
  {
    var containers, existing := Containers(p).value, ExistingNames(p);
    missing := WantedInOrder(existing, FlatMap(Needs(r), containers));
    added := FirstContainers(r, containers, missing);
    forall c, n | c in containers && NeedsSecret(r, c, n) ensures n in existing || n in missing {
      WantedMeans(r, containers, n);
      AddMissingHas(existing, FlatMap(Needs(r), containers), n);
    }
  }

  lemma NamesRendered(r: Renderer, p: Value)
    requires FromText(p) && p.Dict? && Containers(p).Some? && Updated(r, p).Some?
    ensures WithNames(p, Reparse(Updated(r, p).value), PullNames(r, p))
  {
    var names := PullNames(r, p);
    TextStays(p);
    if names != [] {
      ReparseField(p, "imagePullSecrets", Secrets(names));
      SecretsReparsed(names);
      var secrets := Map(Named, names);
      assert HasList(Reparse(Updated(r, p).value), "imagePullSecrets", secrets) && AreNamed(secrets, names);
    }
  }

  /** A rendered pod spec keeps its old named pull secrets first and in order, then comes each secret its containers
      need that was missing, once, in the order of the first container that needs it; all else is as it was. */
  lemma RenderedNames(r: Renderer, p: Value)
    requires FromText(p) && p.Dict? && Updated(r, p).Some?
    ensures IsRendering(r, p, Reparse(Updated(r, p).value))
  {
    var q := Reparse(Updated(r, p).value);
    if Containers(p).Some? {
      NamesRendered(r, p);
      var kept := OldNames(p);
      var missing, added := NewNames(r, p);
      assert RendersWith(r, p, q, Containers(p).value, ExistingNames(p), missing, kept, added);
    } else {
      TextStays(p);
      assert forall containers :: HasList(p, "containers", containers) ==> Containers(p) == Some(containers);
    }
  }

  // ----- What a rendered document says -----

  /** The kinds of resource that have a pod spec, and where it is. */
  ghost predicate HasItAt(kind: string, path: seq<string>) {
    || (kind == "Pod" && path == ["spec"])
    || (kind in {"DaemonSet", "Deployment", "Job", "ReplicaSet", "ReplicationController", "StatefulSet"}
        && path == ["spec", "template", "spec"])
    || (kind == "PodTemplate" && path == ["template", "spec"])
    || (kind == "CronJob" && path == ["spec", "jobTemplate", "spec", "template", "spec"])
  }

  ghost predicate IsOfKind(v: Value, kind: string) {
    v.Dict? && StrKey("kind") in v.entries && v.entries[StrKey("kind")] == Str(kind)
  }

  /** Under the key is this mapping. */
  ghost predicate Under(v: Value, key: string, inner: Value) {
    v.Dict? && StrKey(key) in v.entries && v.entries[StrKey(key)] == inner && inner.Dict?
  }

  ghost predicate SameBeside(v: Value, w: Value, key: string) {
    && v.Dict? && w.Dict? && v.entries.Keys == w.entries.Keys
    && forall k :: k in v.entries && k != StrKey(key) ==> w.entries[k] == v.entries[k]
  }

  /** Where the path leads through mappings the pod spec at its end is rendered; all else is as it was. */
  ghost predicate RendersAt(r: Renderer, v: Value, w: Value, path: seq<string>) {
    if path == [] then IsRendering(r, v, w)
    else if exists inner :: Under(v, path[0], inner) then
      SameBeside(v, w, path[0])
      && exists inner, after ::
           Under(v, path[0], inner) && Under(w, path[0], after) && RendersAt(r, inner, after, path[1..])
    else w == v
  }

  /** What becomes of a document: its pod spec is rendered, or its items are. */
  ghost predicate RendersDocument(r: Renderer, v: Value, w: Value) {
    if exists kind :: IsOfKind(v, kind) then
      if StrKey("items") in v.entries then
        match v.entries[StrKey("items")]
        case List(items) =>
          && SameBeside(v, w, "items") && w.entries[StrKey("items")].List?
          && var after := w.entries[StrKey("items")].items;
             |after| == |items| && forall i :: 0 <= i < |items| ==> RendersDocument(r, items[i], after[i])
        case _ => w == v
      else
        forall kind :: IsOfKind(v, kind) ==>
          if exists path :: HasItAt(kind, path) then exists path :: HasItAt(kind, path) && RendersAt(r, v, w, path)
          else w == v
    else w == v
  }

  lemma {:induction false} PutRenders(r: Renderer, v: Value, path: seq<string>, q: Value)
    requires MapAt(v, path).Some? && q.Dict? && IsRendering(r, MapAt(v, path).value, q)
    ensures RendersAt(r, v, PutAt(v, path, q), path)
  {
    if path != [] {
      var inner := Field(v, path[0]).value;
      PutRenders(r, inner, path[1..], q);
      var after := PutAt(inner, path[1..], q);
      assert Under(v, path[0], inner) && Under(PutAt(v, path, q), path[0], after);
    }
  }

  lemma {:induction false} BrokenRenders(r: Renderer, v: Value, path: seq<string>)
    requires MapAt(v, path).None?
    ensures RendersAt(r, v, v, path)
  {
    if exists inner :: Under(v, path[0], inner) {
      var inner :| Under(v, path[0], inner);
      BrokenRenders(r, inner, path[1..]);
    }
  }

  lemma PathMeans(kind: string)
    ensures forall path :: HasItAt(kind, path) <==> PodSpecPath(kind) == Some(path)
  {
  }

  lemma PodSpecRenders(r: Renderer, v: Value, path: seq<string>)
    requires FromText(v) && RoleOf(v) == HasPodSpec(path) && ProcessResource(r, v).Some?
    ensures RendersDocument(r, v, Reparse(ProcessResource(r, v).value))
  {
    var p := MapAt(v, path).value;
    var u := Updated(r, p).value;
    TextInside(v, path);
    RenderedNames(r, p);
    ReparsePut(v, path, u);
    PodSpecSettles(r, p);
    PutRenders(r, v, path, Reparse(u));
    var kind := Field(v, "kind").value.s;
    PathMeans(kind);
    assert IsOfKind(v, kind);
  }

  lemma UntouchedRenders(r: Renderer, v: Value)
    requires RoleOf(v) == Untouched
    ensures RendersDocument(r, v, v)
  {
    if exists kind :: IsOfKind(v, kind) {
      var kind :| IsOfKind(v, kind);
      PathMeans(kind);
      if PodSpecPath(kind).Some? && MapAt(v, PodSpecPath(kind).value).None? {
        BrokenRenders(r, v, PodSpecPath(kind).value);
      }
    }
  }

  lemma {:induction false} DocumentRenders(r: Renderer, v: Value)
    requires FromText(v) && ProcessResource(r, v).Some?
    ensures RendersDocument(r, v, Reparse(ProcessResource(r, v).value))
    decreases v, 0
  {
    match RoleOf(v)
    case Untouched =>
      TextStays(v);
      UntouchedRenders(r, v);
    case Nested(items) =>
      DocumentsRender(r, items);
      var out := ProcessList(r, items).value;
      ReparseField(v, "items", List(out));
      assert Reparse(List(out)) == List(ReparseAll(out));
      assert IsOfKind(v, Field(v, "kind").value.s);
    case HasPodSpec(path) =>
      PodSpecRenders(r, v, path);
  }

  lemma {:induction false} DocumentsRender(r: Renderer, list: seq<Value>)
    requires (forall v :: v in list ==> FromText(v)) && ProcessList(r, list).Some?
    ensures var out := ProcessList(r, list).value;
            forall i :: 0 <= i < |list| ==> RendersDocument(r, list[i], Reparse(out[i]))
    decreases list, 1
  {
    if list != [] {
      DocumentRenders(r, list[0]);
      DocumentsRender(r, list[1..]);
    }
  }

  /** The pod spec a path leads to. */
  ghost predicate LeadsTo(v: Value, path: seq<string>, p: Value) {
    if path == [] then p == v else exists inner :: Under(v, path[0], inner) && LeadsTo(inner, path[1..], p)
  }

  /** Somewhere in the document, through items of items, is this pod spec. */
  ghost predicate HoldsPodSpec(v: Value, p: Value) {
    && (exists kind :: IsOfKind(v, kind))
    && if StrKey("items") in v.entries then
         v.entries[StrKey("items")].List? && exists w :: w in v.entries[StrKey("items")].items && HoldsPodSpec(w, p)
       else exists kind, path :: IsOfKind(v, kind) && HasItAt(kind, path) && LeadsTo(v, path, p)
  }

  /** It lists containers, and its pull secrets are not a list of mappings. */
  ghost predicate CannotRead(p: Value) {
    && (exists containers :: HasList(p, "containers", containers)) && StrKey("imagePullSecrets") in p.entries
    && !exists secrets: seq<Value> :: HasList(p, "imagePullSecrets", secrets) && forall s :: s in secrets ==> s.Dict?
  }

  lemma CannotReadPanics(p: Value)
    ensures Panics(p) <==> CannotRead(p)
  {
    assert forall items :: HasList(p, "containers", items) ==> Containers(p) == Some(items);
    assert forall items :: HasList(p, "imagePullSecrets", items) ==> Field(p, "imagePullSecrets") == Some(List(items));
    if Panics(p) {
      assert HasList(p, "containers", Containers(p).value);
    } else if Field(p, "imagePullSecrets").Some? && Field(p, "imagePullSecrets").value.List? {
      assert HasList(p, "imagePullSecrets", Field(p, "imagePullSecrets").value.items);
    }
  }

  lemma {:induction false} LeadsToMeans(v: Value, path: seq<string>, p: Value)
    ensures LeadsTo(v, path, p) <==> MapAt(v, path) == Some(p)
  {
    if path != [] {
      forall inner | Under(v, path[0], inner) ensures LeadsTo(inner, path[1..], p) <==> MapAt(v, path) == Some(p) {
        LeadsToMeans(inner, path[1..], p);
      }
      if MapAt(v, path) == Some(p) {
        assert Under(v, path[0], Field(v, path[0]).value);
      }
    }
  }

  lemma {:induction false} HoldsMeans(v: Value, p: Value)
    ensures p in PodSpecs(v) <==> HoldsPodSpec(v, p)
    decreases v, 0
  {
    forall kind | IsOfKind(v, kind) ensures Field(v, "kind") == Some(Str(kind)) {
      PathMeans(kind);
    }
    if Field(v, "kind").Some? && Field(v, "kind").value.Str? {
      var kind := Field(v, "kind").value.s;
      assert IsOfKind(v, kind);
      PathMeans(kind);
      if Field(v, "items") == None {
        if PodSpecPath(kind).Some? {
          LeadsToMeans(v, PodSpecPath(kind).value, p);
        }
      } else if Field(v, "items").value.List? {
        AllHoldMeans(Field(v, "items").value.items, p);
      }
    }
  }

  lemma {:induction false} AllHoldMeans(list: seq<Value>, p: Value)
    ensures p in PodSpecsOf(list) <==> exists w :: w in list && HoldsPodSpec(w, p)
    decreases list, 1
  {
    if list != [] {
      HoldsMeans(list[0], p);
      AllHoldMeans(list[1..], p);
      assert forall w :: w in list <==> w == list[0] || w in list[1..];
    }
  }

  ghost predicate ParsesTo(decoded: Option<seq<Value>>) {
    decoded.Some? ==> forall v :: v in decoded.value ==> FromText(v)
  }

  /** The renderer hands the manifests back without a secret, and otherwise reports what does not parse, panics exactly
      for a pod spec whose pull secrets it cannot read, and renders each document. */
  ghost predicate IsOutcome(r: Renderer, decoded: Option<seq<Value>>, outcome: Outcome) {
    && (outcome == Same <==> r.secrets == map[])
    && (outcome == ParseError <==> r.secrets != map[] && decoded.None?)
    && (outcome == Panic <==>
        && r.secrets != map[] && decoded.Some?
        && exists v, p :: v in decoded.value && HoldsPodSpec(v, p) && CannotRead(p))
    && (outcome.Rendered? ==>
        && decoded.Some? && |outcome.docs| == |decoded.value|
        && forall i :: 0 <= i < |outcome.docs| ==> RendersDocument(r, decoded.value[i], outcome.docs[i]))
  }

  lemma RunMeans(r: Renderer, decoded: Option<seq<Value>>)
    requires ParsesTo(decoded)
    ensures IsOutcome(r, decoded, AfterRun(r, decoded))
  {
    if decoded.Some? {
      var list := decoded.value;
      UpdatesPodSpecs(r, list);
      forall p ensures Panics(p) <==> CannotRead(p) {
        CannotReadPanics(p);
      }
      forall p ensures p in PodSpecsOf(list) <==> exists v :: v in list && HoldsPodSpec(v, p) {
        AllHoldMeans(list, p);
      }
      if ProcessList(r, list).Some? {
        DocumentsRender(r, list);
      }
    }
  }

  // ----- Rendering twice -----

  ghost predicate Settles(r: Renderer, list: seq<Value>) {
    ProcessList(r, list).Some? && ReparseAll(ProcessList(r, list).value) == list
  }

  lemma SettlesCons(r: Renderer, v: Value, rest: seq<Value>)
    requires Settles(r, rest) && ProcessResource(r, v).Some? && Reparse(ProcessResource(r, v).value) == v
    ensures Settles(r, [v] + rest)
  {
    assert ([v] + rest)[1..] == rest;
    var w, more := ProcessResource(r, v).value, ProcessList(r, rest).value;
    assert ReparseAll([w] + more) == [Reparse(w)] + ReparseAll(more);
  }

  lemma {:induction false} ResourceSettles(r: Renderer, v: Value)
    requires FromText(v) && ProcessResource(r, v).Some?
    ensures var w := Reparse(ProcessResource(r, v).value);
            ProcessResource(r, w).Some? && Reparse(ProcessResource(r, w).value) == w
    decreases v, 2
  {
    TextStays(v);
    match RoleOf(v)
    case Untouched =>
    case Nested(items) =>
      NestedSettles(r, v, items);
    case HasPodSpec(path) =>
      var p := MapAt(v, path).value;
      TextInside(v, path);
      PodSpecSettles(r, p);
      PodSpecDocumentSettles(r, v, path);
  }

  lemma PodSpecDocumentSettles(r: Renderer, v: Value, path: seq<string>)
    requires FromText(v) && RoleOf(v) == HasPodSpec(path)
    requires Updated(r, MapAt(v, path).value).Some?
    requires var q := Reparse(Updated(r, MapAt(v, path).value).value);
             q.Dict? && Updated(r, q).Some? && Updated(r, q).value.Dict? && Reparse(Updated(r, q).value) == q
    ensures var w := Reparse(ProcessResource(r, v).value);
            ProcessResource(r, w).Some? && Reparse(ProcessResource(r, w).value) == w
  {
    var u := Updated(r, MapAt(v, path).value).value;
    var q := Reparse(u);
    var again := Updated(r, q).value;
    ReparsePut(v, path, u);
    RoleKept(v, path, q);
    var w := PutAt(v, path, q);
    assert ProcessResource(r, w) == Some(PutAt(w, path, again));
    PutTwice(v, path, q, again);
    ReparsePut(v, path, again);
  }

  lemma NestedSettles(r: Renderer, v: Value, items: seq<Value>)
    requires FromText(v) && RoleOf(v) == Nested(items) && ProcessList(r, items).Some?
    ensures var w := Reparse(ProcessResource(r, v).value);
            ProcessResource(r, w).Some? && Reparse(ProcessResource(r, w).value) == w
    decreases v, 1
  {
    var out := ProcessList(r, items).value;
    ListSettles(r, items);
    var once := ReparseAll(out);
    ReparseField(v, "items", List(out));
    NestedKept(v, items, once);
    var w := WithField(v, "items", List(once));
    var twice := ProcessList(r, once).value;
    assert ProcessResource(r, w) == Some(WithField(w, "items", List(twice)));
    assert w.entries[StrKey("items") := List(twice)] == v.entries[StrKey("items") := List(twice)];
    ReparseField(v, "items", List(twice));
  }

  lemma {:induction false} ListSettles(r: Renderer, list: seq<Value>)
    requires (forall v :: v in list ==> FromText(v)) && ProcessList(r, list).Some?
    ensures Settles(r, ReparseAll(ProcessList(r, list).value))
    decreases list, 1
  {
    if list != [] {
      ResourceSettles(r, list[0]);
      ListSettles(r, list[1..]);
      var out := ProcessList(r, list).value;
      assert out[1..] == ProcessList(r, list[1..]).value;
      assert ReparseAll(out) == [Reparse(out[0])] + ReparseAll(out[1..]);
      SettlesCons(r, Reparse(out[0]), ReparseAll(out[1..]));
    }
  }

  /** Rendering the rendered manifests again changes nothing. */
  lemma RunTwice(r: Renderer, docs: seq<Value>)
    requires forall v :: v in docs ==> FromText(v)
    requires AfterRun(r, Some(docs)).Rendered?
    ensures AfterRun(r, Some(AfterRun(r, Some(docs)).docs)) == AfterRun(r, Some(docs))
  {
    ListSettles(r, docs);
  }
}
