/** Which actions a user lacks for the objects of a manifest (pkg/auth/auth.go). */
module ForbiddenActions {
  import opened Wrappers
  import opened Sequences
  import opened Text

  datatype Object = Object(namespace: string, apiVersion: string, kind: string)

  datatype Resource = Resource(apiVersion: string, kind: string, namespace: string)

  datatype Action = Action(apiVersion: string, resource: string, namespace: string, clusterWide: bool,
    verbs: seq<string>)

  datatype APIResource = APIResource(name: string, kind: string, namespaced: bool)

  /** The cluster's answers: the resources of a group version, and whether a verb on (group, resource, namespace) is
      allowed.  None is a failed call. */
  datatype ResourceList = Listed(resources: seq<APIResource>) | NotFound | ListFailed

  datatype Cluster = Cluster(list: string -> ResourceList, canI: (string, string, string, string) -> Option<bool>)

  const UPGRADE_VERBS: seq<string> := ["create", "update", "delete"]

  // ----- One check -----

  datatype Resolved = Unregistered | Failed | Info(name: string, namespaced: bool)

  ghost predicate IsFirstOfKind(resources: seq<APIResource>, kind: string, i: nat) {
    i < |resources| && resources[i].kind == kind && forall j :: 0 <= j < i ==> resources[j].kind != kind
  }

  method Resolve(cluster: Cluster, groupVersion: string, kind: string) returns (info: Resolved)
    ensures info == ResolveKind(cluster, groupVersion, kind)
  {
    var resourceList := cluster.list(groupVersion);
    if resourceList.NotFound? {
      return Unregistered;
    }
    if resourceList.ListFailed? {
      return Failed;
    }
    var resources := resourceList.resources;
    for i := 0 to |resources|
      invariant forall j :: 0 <= j < i ==> resources[j].kind != kind
    {
      if resources[i].kind == kind {
        FirstKindIs(resources, kind, i);
        return Info(resources[i].name, resources[i].namespaced);
      }
    }
    NoKind(resources, kind);
    return Failed;
  }

  function FirstKind(resources: seq<APIResource>, kind: string): Resolved {
    if resources == [] then Failed
    else if resources[0].kind == kind then Info(resources[0].name, resources[0].namespaced)
    else FirstKind(resources[1..], kind)
  }

  lemma {:induction false} FirstKindIs(resources: seq<APIResource>, kind: string, i: nat)
    requires IsFirstOfKind(resources, kind, i)
    ensures FirstKind(resources, kind) == Info(resources[i].name, resources[i].namespaced)
  {
    if i > 0 {
      assert resources[0].kind != kind;
      FirstKindIs(resources[1..], kind, i - 1);
    }
  }

  lemma {:induction false} NoKind(resources: seq<APIResource>, kind: string)
    requires forall j :: 0 <= j < |resources| ==> resources[j].kind != kind
    ensures FirstKind(resources, kind) == Failed
  {
    if resources != [] {
      NoKind(resources[1..], kind);
    }
  }

  function ResolveKind(cluster: Cluster, groupVersion: string, kind: string): Resolved {
    match cluster.list(groupVersion)
    case NotFound => Unregistered
    case ListFailed => Failed
    case Listed(resources) => FirstKind(resources, kind)
  }

  /** The first resource of the kind decides; a kind the group does not list is an error, an unknown group is not. */
  lemma ResolveMeans(cluster: Cluster, groupVersion: string, kind: string)
    ensures ResolveKind(cluster, groupVersion, kind) == Unregistered <==> cluster.list(groupVersion) == NotFound
    ensures cluster.list(groupVersion).Listed? ==>
      var resources := cluster.list(groupVersion).resources;
      && (ResolveKind(cluster, groupVersion, kind) == Failed <==> forall r :: r in resources ==> r.kind != kind)
      && forall i: nat :: IsFirstOfKind(resources, kind, i) ==>
           ResolveKind(cluster, groupVersion, kind) == Info(resources[i].name, resources[i].namespaced)
  {
    if cluster.list(groupVersion).Listed? {
      var resources := cluster.list(groupVersion).resources;
      forall i: nat | IsFirstOfKind(resources, kind, i)
        ensures FirstKind(resources, kind) == Info(resources[i].name, resources[i].namespaced)
      {
        FirstKindIs(resources, kind, i);
      }
      SomeKind(resources, kind);
    }
  }

  lemma {:induction false} SomeKind(resources: seq<APIResource>, kind: string)
    ensures FirstKind(resources, kind) != Unregistered
    ensures FirstKind(resources, kind) == Failed <==> forall r :: r in resources ==> r.kind != kind
  {
    if resources != [] {
      SomeKind(resources[1..], kind);
      assert resources == [resources[0]] + resources[1..];
    }
  }

  datatype Verdict = Skipped | Broken | Allowed | Denied(resource: string, namespaced: bool)

  /** The group asked about first: the core group has no name. */
  function FullGroup(apiVersion: string): string {
    if apiVersion == "v1" then "" else apiVersion
  }

  /** The group asked about when the first answer is no. */
  function Unversioned(group: string): (g: string)
    requires '/' in group
    ensures '/' !in g && g + "/" <= group
  {
    var parts := Split(group, '/');
    JoinSplit(group, '/');
    assert |parts| > 1;
    parts[0]
  }

  /** Allowed for the full group or, when that is versioned, for the group without its version. */
  function Judge(cluster: Cluster, verb: string, item: Resource): Verdict {
    match ResolveKind(cluster, item.apiVersion, item.kind)
    case Unregistered => Skipped
    case Failed => Broken
    case Info(name, namespaced) =>
      var group := FullGroup(item.apiVersion);
      match cluster.canI(verb, group, name, item.namespace)
      case None => Broken
      case Some(true) => Allowed
      case Some(false) =>
        if '/' !in group then Denied(name, namespaced)
        else
          match cluster.canI(verb, Unversioned(group), name, item.namespace)
          case None => Broken
          case Some(true) => Allowed
          case Some(false) => Denied(name, namespaced)
  }

  /** The kind is that of this API resource: the first of the kind its group lists. */
  ghost predicate IsOf(cluster: Cluster, item: Resource, name: string, namespaced: bool) {
    var list := cluster.list(item.apiVersion);
    && list.Listed?
    && exists i: nat :: IsFirstOfKind(list.resources, item.kind, i) && list.resources[i].name == name
                        && list.resources[i].namespaced == namespaced
  }

  /** The cluster's answer for the API version, the core one having no group name. */
  ghost predicate Answers(cluster: Cluster, verb: string, item: Resource, name: string, answer: Option<bool>) {
    cluster.canI(verb, if item.apiVersion == "v1" then "" else item.apiVersion, name, item.namespace) == answer
  }

  /** What comes before the first slash. */
  ghost predicate HasGroup(apiVersion: string, group: string) {
    '/' !in group && group + "/" <= apiVersion
  }

  /** The cluster's answer for the group without its version. */
  ghost predicate GroupAnswers(cluster: Cluster, verb: string, item: Resource, name: string, answer: Option<bool>) {
    exists group :: HasGroup(item.apiVersion, group) && cluster.canI(verb, group, name, item.namespace) == answer
  }

  /** The answer is no for the full group and, if that is versioned, for the group without its version. */
  ghost predicate Denies(cluster: Cluster, verb: string, item: Resource, name: string, namespaced: bool) {
    && IsOf(cluster, item, name, namespaced)
    && Answers(cluster, verb, item, name, Some(false))
    && ('/' in item.apiVersion ==> GroupAnswers(cluster, verb, item, name, Some(false)))
  }

  /** The first answer that is not no is yes. */
  ghost predicate Permits(cluster: Cluster, verb: string, item: Resource, name: string) {
    || Answers(cluster, verb, item, name, Some(true))
    || (Answers(cluster, verb, item, name, Some(false)) && GroupAnswers(cluster, verb, item, name, Some(true)))
  }

  /** The group or the kind cannot be looked up, or the first answer that is not no does not come. */
  ghost predicate Fails(cluster: Cluster, verb: string, item: Resource) {
    var list := cluster.list(item.apiVersion);
    || list == ListFailed
    || (list.Listed? && forall r :: r in list.resources ==> r.kind != item.kind)
    || exists name, namespaced :: IsOf(cluster, item, name, namespaced) && NoAnswer(cluster, verb, item, name)
  }

  ghost predicate NoAnswer(cluster: Cluster, verb: string, item: Resource, name: string) {
    || Answers(cluster, verb, item, name, None)
    || (Answers(cluster, verb, item, name, Some(false)) && GroupAnswers(cluster, verb, item, name, None))
  }

  lemma NotBefore(s: string, i: nat, k: nat)
    requires i < |s| && s[i] == '/' && k <= |s| && '/' !in s[..k]
    ensures k <= i
  {
    assert forall j :: 0 <= j < k ==> s[..k][j] == s[j];
  }

  lemma GroupIs(apiVersion: string, group: string)
    ensures HasGroup(apiVersion, group) ==> '/' in apiVersion && group == Unversioned(apiVersion)
    ensures '/' in apiVersion ==> HasGroup(apiVersion, Unversioned(apiVersion))
  {
    if HasGroup(apiVersion, group) {
      assert apiVersion[|group|] == '/';
      var first := Unversioned(apiVersion);
      assert apiVersion[|first|] == '/';
      assert group == apiVersion[..|group|] && first == apiVersion[..|first|];
      NotBefore(apiVersion, |group|, |first|);
      NotBefore(apiVersion, |first|, |group|);
    }
  }

  lemma GroupAnswersMeans(cluster: Cluster, verb: string, item: Resource, name: string, answer: Option<bool>)
    ensures GroupAnswers(cluster, verb, item, name, answer) <==>
      '/' in item.apiVersion && cluster.canI(verb, Unversioned(item.apiVersion), name, item.namespace) == answer
  {
    forall group
      ensures HasGroup(item.apiVersion, group) ==> '/' in item.apiVersion && group == Unversioned(item.apiVersion)
    {
      GroupIs(item.apiVersion, group);
    }
    GroupIs(item.apiVersion, "");
  }

  lemma IsOfIffResolved(cluster: Cluster, item: Resource, name: string, namespaced: bool)
    ensures IsOf(cluster, item, name, namespaced)
       <==> ResolveKind(cluster, item.apiVersion, item.kind) == Info(name, namespaced)
  {
    var list := cluster.list(item.apiVersion);
    if list.Listed? {
      ResolveMeans(cluster, item.apiVersion, item.kind);
      if FirstKind(list.resources, item.kind).Info? {
        var i := FirstOfKindExists(list.resources, item.kind);
      }
    }
  }

  lemma {:induction false} FirstOfKindExists(resources: seq<APIResource>, kind: string) returns (i: nat)
    requires exists r :: r in resources && r.kind == kind
    ensures IsFirstOfKind(resources, kind, i)
  {
    if resources[0].kind == kind {
      i := 0;
    } else {
      var rest := FirstOfKindExists(resources[1..], kind);
      i := rest + 1;
      assert forall j :: 0 < j < i ==> resources[j] == resources[1..][j - 1];
    }
  }

  lemma JudgeResolved(cluster: Cluster, verb: string, item: Resource, name: string, namespaced: bool)
    requires ResolveKind(cluster, item.apiVersion, item.kind) == Info(name, namespaced)
    ensures Judge(cluster, verb, item) in {Broken, Allowed, Denied(name, namespaced)}
    ensures Judge(cluster, verb, item).Denied? <==> Denies(cluster, verb, item, name, namespaced)
    ensures Judge(cluster, verb, item).Allowed? <==> Permits(cluster, verb, item, name)
    ensures Judge(cluster, verb, item).Broken? <==> NoAnswer(cluster, verb, item, name)
  {
    IsOfIffResolved(cluster, item, name, namespaced);
    GroupAnswersMeans(cluster, verb, item, name, Some(true));
    GroupAnswersMeans(cluster, verb, item, name, Some(false));
    GroupAnswersMeans(cluster, verb, item, name, None);
  }

  /** When an item is skipped, denied and allowed, and when the check breaks. */
  lemma JudgeMeans(cluster: Cluster, verb: string, item: Resource)
    ensures Judge(cluster, verb, item) == Skipped <==> cluster.list(item.apiVersion) == NotFound
    ensures forall name, namespaced ::
      Judge(cluster, verb, item) == Denied(name, namespaced) <==> Denies(cluster, verb, item, name, namespaced)
    ensures Judge(cluster, verb, item) == Allowed <==>
      exists name, namespaced :: IsOf(cluster, item, name, namespaced) && Permits(cluster, verb, item, name)
    ensures Judge(cluster, verb, item) == Broken <==> Fails(cluster, verb, item)
  {
    forall name, namespaced
      ensures IsOf(cluster, item, name, namespaced)
         <==> ResolveKind(cluster, item.apiVersion, item.kind) == Info(name, namespaced)
    {
      IsOfIffResolved(cluster, item, name, namespaced);
    }
    ResolveMeans(cluster, item.apiVersion, item.kind);
    var resolved := ResolveKind(cluster, item.apiVersion, item.kind);
    if resolved.Info? {
      JudgeResolved(cluster, verb, item, resolved.name, resolved.namespaced);
    }
  }

  function ToActions(verb: string, item: Resource, verdict: Verdict): seq<Action> {
    match verdict
    case Denied(name, namespaced) =>
      [Action(item.apiVersion, name, if namespaced then item.namespace else "", !namespaced, [verb])]
    case _ => []
  }

  function Rejection(cluster: Cluster, verb: string): Resource -> seq<Action> {
    item => ToActions(verb, item, Judge(cluster, verb, item))
  }

  predicate Breaks(cluster: Cluster, verb: string, items: seq<Resource>) {
    exists i :: 0 <= i < |items| && Judge(cluster, verb, items[i]) == Broken
  }

  function Rejected(cluster: Cluster, verb: string, items: seq<Resource>): Option<seq<Action>> {
    if Breaks(cluster, verb, items) then None else Some(FlatMap(Rejection(cluster, verb), items))
  }

  /** The entry of a report for a denied item; one without a namespace is cluster-wide. */
  ghost predicate IsRejection(cluster: Cluster, verb: string, item: Resource, a: Action) {
    exists namespaced :: Denies(cluster, verb, item, a.resource, namespaced)
      && a == Action(item.apiVersion, a.resource, if namespaced then item.namespace else "", !namespaced, [verb])
  }

  ghost predicate IsDeniedItem(cluster: Cluster, verb: string, item: Resource) {
    exists name, namespaced :: Denies(cluster, verb, item, name, namespaced)
  }

  /** One action for each denied item, in order. */
  ghost predicate RejectsInOrder(cluster: Cluster, verb: string, items: seq<Resource>, actions: seq<Action>) {
    exists at :: RejectsAt(cluster, verb, items, at, actions)
  }

  ghost predicate RejectsAt(cluster: Cluster, verb: string, items: seq<Resource>, at: seq<nat>, actions: seq<Action>) {
    && Increasing(at) && |at| == |actions|
    && (forall j :: 0 <= j < |at| ==> at[j] < |items| && IsRejection(cluster, verb, items[at[j]], actions[j]))
    && forall i: nat :: i < |items| && IsDeniedItem(cluster, verb, items[i]) ==> i in at
  }

  lemma RejectionMeans(cluster: Cluster, verb: string, item: Resource, a: Action)
    ensures |Rejection(cluster, verb)(item)| <= 1
    ensures Rejection(cluster, verb)(item) == [a] <==> IsRejection(cluster, verb, item, a)
    ensures a in Rejection(cluster, verb)(item) <==> IsRejection(cluster, verb, item, a)
    ensures Rejection(cluster, verb)(item) != [] <==> IsDeniedItem(cluster, verb, item)
  {
    JudgeMeans(cluster, verb, item);
    var verdict := Judge(cluster, verb, item);
    if verdict.Denied? {
      assert Denies(cluster, verb, item, verdict.resource, verdict.namespaced);
    }
  }

  lemma RejectedInOrder(cluster: Cluster, verb: string, items: seq<Resource>)
    ensures RejectsInOrder(cluster, verb, items, FlatMap(Rejection(cluster, verb), items))
  {
    var f := Rejection(cluster, verb);
    var actions := FlatMap(f, items);
    forall item: Resource ensures |f(item)| <= 1 && (f(item) != [] <==> IsDeniedItem(cluster, verb, item)) {
      RejectionMeans(cluster, verb, item, Action("", "", "", false, []));
    }
    var at := PickedInOrder(f, items);
    forall j | 0 <= j < |at| ensures at[j] < |items| && IsRejection(cluster, verb, items[at[j]], actions[j]) {
      RejectionMeans(cluster, verb, items[at[j]], actions[j]);
    }
    forall i: nat | i < |items| && IsDeniedItem(cluster, verb, items[i]) ensures i in at {
      assert f(items[i]) != [];
    }
    assert RejectsAt(cluster, verb, items, at, actions);
  }

  lemma BreaksMeans(cluster: Cluster, verb: string, items: seq<Resource>)
    ensures Breaks(cluster, verb, items) <==> exists item :: item in items && Fails(cluster, verb, item)
  {
    if Breaks(cluster, verb, items) {
      var i :| 0 <= i < |items| && Judge(cluster, verb, items[i]) == Broken;
      JudgeMeans(cluster, verb, items[i]);
      assert items[i] in items;
    }
    if exists item :: item in items && Fails(cluster, verb, item) {
      var item :| item in items && Fails(cluster, verb, item);
      JudgeMeans(cluster, verb, item);
      var i :| 0 <= i < |items| && items[i] == item;
    }
  }

  /** An error exactly if a check fails, and otherwise the rejections. */
  ghost predicate RejectsOrFails(cluster: Cluster, verb: string, items: seq<Resource>, r: Option<seq<Action>>) {
    && (r.None? <==> exists item :: item in items && Fails(cluster, verb, item))
    && (r.Some? ==> RejectsInOrder(cluster, verb, items, r.value))
  }

  lemma RejectedMeans(cluster: Cluster, verb: string, items: seq<Resource>)
    ensures RejectsOrFails(cluster, verb, items, Rejected(cluster, verb, items))
  {
    BreaksMeans(cluster, verb, items);
    RejectedInOrder(cluster, verb, items);
  }

  method Check(cluster: Cluster, verb: string, i: Resource) returns (verdict: Verdict)
    ensures verdict == Judge(cluster, verb, i)
  {
    var rInfo := Resolve(cluster, i.apiVersion, i.kind);
    if rInfo.Unregistered? {
      return Skipped;
    }
    if rInfo.Failed? {
      return Broken;
    }
    var group := i.apiVersion;
    if group == "v1" {
      group := "";
    }
    var allowed := cluster.canI(verb, group, rInfo.name, i.namespace);
    if allowed.None? {
      return Broken;
    }
    if !allowed.value && '/' in group {
      allowed := cluster.canI(verb, Split(group, '/')[0], rInfo.name, i.namespace);
      if allowed.None? {
        return Broken;
      }
    }
    return if allowed.value then Allowed else Denied(rInfo.name, rInfo.namespaced);
  }

  lemma NextItem(cluster: Cluster, verb: string, items: seq<Resource>, n: nat)
    requires n < |items|
    ensures FlatMap(Rejection(cluster, verb), items[..n + 1])
         == FlatMap(Rejection(cluster, verb), items[..n]) + ToActions(verb, items[n], Judge(cluster, verb, items[n]))
  {
    assert items[..n + 1] == items[..n] + [items[n]];
    FlatMapSnoc(Rejection(cluster, verb), items[..n], items[n]);
  }

  method IsAllowed(cluster: Cluster, verb: string, itemsToCheck: seq<Resource>) returns (actions: Option<seq<Action>>)
    ensures actions == Rejected(cluster, verb, itemsToCheck)
    ensures RejectsOrFails(cluster, verb, itemsToCheck, actions)
  {
    var rejectedActions := [];
    for n := 0 to |itemsToCheck|
      invariant forall i :: 0 <= i < n ==> Judge(cluster, verb, itemsToCheck[i]) != Broken
      invariant rejectedActions == FlatMap(Rejection(cluster, verb), itemsToCheck[..n])
    {
      var i := itemsToCheck[n];
      NextItem(cluster, verb, itemsToCheck, n);
      var verdict := Check(cluster, verb, i);
      if verdict.Broken? {
        RejectedMeans(cluster, verb, itemsToCheck);
        return None;
      }
      if verdict.Denied? {
        var rejectedAction := Action(i.apiVersion, verdict.resource, "", !verdict.namespaced, [verb]);
        if verdict.namespaced {
          rejectedAction := rejectedAction.(namespace := i.namespace);
        }
        rejectedActions := rejectedActions + [rejectedAction];
      }
    }
    assert itemsToCheck[..|itemsToCheck|] == itemsToCheck;
    RejectedMeans(cluster, verb, itemsToCheck);
    return Some(rejectedActions);
  }

  // ----- Keys -----

  function Slashed(a: string, b: string, c: string): string {
    a + "/" + b + "/" + c
  }

  /** The middle part may hold slashes; the outer ones must not. */
  lemma SlashedTellsApart(a: string, b: string, c: string, a': string, b': string, c': string)
    requires '/' !in a && '/' !in c && '/' !in a' && '/' !in c'
    requires Slashed(a, b, c) == Slashed(a', b', c')
    ensures a == a' && b == b' && c == c'
  {
    var s := Slashed(a, b, c);
    SlashedParts(a, b, c);
    SlashedParts(a', b', c');
    assert s[|a| + 1..|s| - |c| - 1] == b && s[|a| + 1..|s| - |c| - 1] == b';
  }

  lemma SlashedParts(a: string, b: string, c: string)
    requires '/' !in a && '/' !in c
    ensures var parts := Split(Slashed(a, b, c), '/'); parts[0] == a && parts[|parts| - 1] == c
  {
    assert Slashed(a, b, c) == a + ['/'] + (b + ['/'] + c);
    SplitAt(a, '/', b + ['/'] + c);
    SplitLast(b, '/', c);
  }

  // ----- The resources to check -----

  function ToResource(namespace: string): Object -> Resource {
    (obj: Object) => Resource(obj.apiVersion, obj.kind, if obj.namespace == "" then namespace else obj.namespace)
  }

  function ResourceKey(r: Resource): string {
    Slashed(r.namespace, r.apiVersion, r.kind)
  }

  predicate HasKey(resources: seq<Resource>, key: string) {
    exists i :: 0 <= i < |resources| && ResourceKey(resources[i]) == key
  }

  /** The first resource of each key. */
  function FirstOfEachKey(resources: seq<Resource>): seq<Resource> {
    if resources == [] then []
    else
      var before, last := FirstOfEachKey(resources[..|resources| - 1]), resources[|resources| - 1];
      if HasKey(before, ResourceKey(last)) then before else before + [last]
  }

  /** What is asked about for an object: in its own namespace if it names one, else in the release's. */
  ghost predicate IsFor(namespace: string, obj: Object, r: Resource) {
    r == Resource(obj.apiVersion, obj.kind, if obj.namespace != "" then obj.namespace else namespace)
  }

  ghost predicate AskedFor(namespace: string, objs: seq<Object>, r: Resource) {
    exists obj :: obj in objs && IsFor(namespace, obj, r)
  }

  /** Objects with one key are asked about as one. */
  ghost predicate ObjectsTellApart(namespace: string, objs: seq<Object>) {
    forall r, s ::
      && AskedFor(namespace, objs, r) && AskedFor(namespace, objs, s)
      && r.namespace + "/" + r.apiVersion + "/" + r.kind == s.namespace + "/" + s.apiVersion + "/" + s.kind
      ==> r == s
  }

  lemma AskedForMeans(namespace: string, objs: seq<Object>, r: Resource)
    ensures AskedFor(namespace, objs, r) <==> r in Map(ToResource(namespace), objs)
  {
    var all := Map(ToResource(namespace), objs);
    if AskedFor(namespace, objs, r) {
      var obj :| obj in objs && IsFor(namespace, obj, r);
      var i :| 0 <= i < |objs| && objs[i] == obj;
      assert all[i] == r;
    }
    if r in all {
      var i :| 0 <= i < |all| && all[i] == r;
      assert objs[i] in objs && IsFor(namespace, objs[i], r);
    }
  }

  lemma TellApartMeans(namespace: string, objs: seq<Object>)
    ensures ObjectsTellApart(namespace, objs) <==> ResourceKeysTellApart(Map(ToResource(namespace), objs))
  {
    forall r ensures AskedFor(namespace, objs, r) <==> r in Map(ToResource(namespace), objs) {
      AskedForMeans(namespace, objs, r);
    }
  }

  /** The objects' resources are all asked about exactly when objects with one key have one resource. */
  lemma AllAskedForIff(namespace: string, objs: seq<Object>)
    ensures forall r :: r in FirstOfEachKey(Map(ToResource(namespace), objs)) ==> AskedFor(namespace, objs, r)
    ensures ObjectsTellApart(namespace, objs) <==>
      forall r :: AskedFor(namespace, objs, r) ==> r in FirstOfEachKey(Map(ToResource(namespace), objs))
  {
    var all := Map(ToResource(namespace), objs);
    forall r ensures AskedFor(namespace, objs, r) <==> r in all {
      AskedForMeans(namespace, objs, r);
    }
    TellApartMeans(namespace, objs);
    AllResourcesCheckedIff(all);
    EachKeyOnce(all, "");
  }

  ghost function Items(namespace: string, objs: seq<Object>): seq<Resource> {
    FirstOfEachKey(Map(ToResource(namespace), objs))
  }

  /** For each item the first object that asks about it. */
  ghost predicate FirstAsking(namespace: string, objs: seq<Object>, items: seq<Resource>, first: seq<nat>) {
    && Increasing(first) && |first| == |items|
    && forall j :: 0 <= j < |items| ==>
         && first[j] < |objs| && IsFor(namespace, objs[first[j]], items[j])
         && forall i :: 0 <= i < first[j] ==> !IsFor(namespace, objs[i], items[j])
  }

  lemma {:induction false} FirstPlaces(resources: seq<Resource>) returns (at: seq<nat>)
    ensures Increasing(at) && |at| == |FirstOfEachKey(resources)|
    ensures forall j :: 0 <= j < |at| ==>
      at[j] < |resources| && resources[at[j]] == FirstOfEachKey(resources)[j]
      && FirstOfEachKey(resources)[j] !in resources[..at[j]]
  {
    if resources == [] {
      at := [];
    } else {
      var before, last := resources[..|resources| - 1], resources[|resources| - 1];
      at := FirstPlaces(before);
      forall j | 0 <= j < |at| ensures resources[..at[j]] == before[..at[j]] {
      }
      if !HasKey(FirstOfEachKey(before), ResourceKey(last)) {
        EachKeyOnce(before, ResourceKey(last));
        assert resources[..|before|] == before;
        at := at + [|before|];
      }
    }
  }

  lemma FirstToAsk(namespace: string, objs: seq<Object>) returns (first: seq<nat>)
    ensures FirstAsking(namespace, objs, Items(namespace, objs), first)
  {
    var all := Map(ToResource(namespace), objs);
    first := FirstPlaces(all);
    forall j, i | 0 <= j < |first| && 0 <= i < first[j] ensures !IsFor(namespace, objs[i], Items(namespace, objs)[j]) {
      assert all[..first[j]][i] == all[i];
    }
  }

  method GetResourcesToCheck(namespace: string, objs: seq<Object>) returns (result: seq<Resource>)
    ensures result == FirstOfEachKey(Map(ToResource(namespace), objs))
    ensures forall r :: r in result ==> AskedFor(namespace, objs, r)
    ensures ObjectsTellApart(namespace, objs) <==> forall r :: AskedFor(namespace, objs, r) ==> r in result
    ensures Distinct(result) && exists first :: FirstAsking(namespace, objs, result, first)
  {
    ghost var first := FirstToAsk(namespace, objs);
    AllAskedForIff(namespace, objs);
    EachKeyOnce(Map(ToResource(namespace), objs), "");
    var resourcesToCheck: set<string> := {};
    result := [];
    ghost var all := Map(ToResource(namespace), objs);
    for i := 0 to |objs|
      invariant result == FirstOfEachKey(all[..i])
      invariant forall key :: key in resourcesToCheck <==> HasKey(result, key)
    {
      var obj := objs[i];
      var ns := obj.namespace;
      if ns == "" {
        ns := namespace;
      }
      var r := Resource(obj.apiVersion, obj.kind, ns);
      assert all[i] == r;
      assert all[..i + 1][..|all[..i + 1]| - 1] == all[..i] && all[..i + 1][|all[..i + 1]| - 1] == r;
      var resourceToCheck := ResourceKey(r);
      if resourceToCheck !in resourcesToCheck {
        HasKeySnoc(result, r);
        resourcesToCheck := resourcesToCheck + {resourceToCheck};
        result := result + [r];
      }
    }
    assert all[..|all|] == all;
  }

  lemma HasKeySnoc(resources: seq<Resource>, r: Resource)
    ensures forall key :: HasKey(resources + [r], key) <==> HasKey(resources, key) || key == ResourceKey(r)
  {
    var longer := resources + [r];
    assert ResourceKey(longer[|resources|]) == ResourceKey(r);
    forall key | HasKey(resources, key) ensures HasKey(longer, key) {
      var i :| 0 <= i < |resources| && ResourceKey(resources[i]) == key;
      assert ResourceKey(longer[i]) == key;
    }
  }

  ghost predicate ResourceKeysTellApart(resources: seq<Resource>) {
    forall r, s :: r in resources && s in resources && ResourceKey(r) == ResourceKey(s) ==> r == s
  }

  lemma {:induction false} EachKeyOnce(resources: seq<Resource>, key: string)
    ensures HasKey(FirstOfEachKey(resources), key) <==> HasKey(resources, key)
    ensures forall r :: r in FirstOfEachKey(resources) ==> r in resources
    ensures forall i, j :: 0 <= i < j < |FirstOfEachKey(resources)| ==>
      ResourceKey(FirstOfEachKey(resources)[i]) != ResourceKey(FirstOfEachKey(resources)[j])
  {
    if resources != [] {
      var before, last := resources[..|resources| - 1], resources[|resources| - 1];
      EachKeyOnce(before, key);
      assert resources == before + [last];
      HasKeySnoc(before, last);
      HasKeySnoc(FirstOfEachKey(before), last);
    }
  }

  /** No object's permissions go unchecked exactly when different resources have different keys. */
  lemma AllResourcesCheckedIff(resources: seq<Resource>)
    ensures ResourceKeysTellApart(resources) <==> forall r :: r in resources ==> r in FirstOfEachKey(resources)
  {
    var checked := FirstOfEachKey(resources);
    EachKeyOnce(resources, "");
    if ResourceKeysTellApart(resources) {
      forall r | r in resources ensures r in checked {
        EachKeyOnce(resources, ResourceKey(r));
        var i :| 0 <= i < |resources| && resources[i] == r;
        assert HasKey(resources, ResourceKey(r));
        var j :| 0 <= j < |checked| && ResourceKey(checked[j]) == ResourceKey(r);
        assert checked[j] in checked;
      }
    }
    forall r, s | r in checked && s in checked && ResourceKey(r) == ResourceKey(s) ensures r == s {
      var i :| 0 <= i < |checked| && checked[i] == r;
      var j :| 0 <= j < |checked| && checked[j] == s;
    }
  }

  lemma PlainNamesTellApart(resources: seq<Resource>)
    requires forall r :: r in resources ==> '/' !in r.namespace && '/' !in r.kind
    ensures ResourceKeysTellApart(resources)
  {
    forall r, s | r in resources && s in resources && ResourceKey(r) == ResourceKey(s) ensures r == s {
      SlashedTellsApart(r.namespace, r.apiVersion, r.kind, s.namespace, s.apiVersion, s.kind);
    }
  }

  // ----- Merging by key -----

  function ActionKey(a: Action): string {
    Slashed(a.namespace, a.apiVersion, a.resource)
  }

  method MergeVerbs(current: seq<string>, more: seq<string>) returns (res: seq<string>)
    ensures res == AddMissing(current, more)
  {
    var resMap := set v | v in current;
    res := current;
    for i := 0 to |more|
      invariant forall v :: v in resMap <==> v in res
      invariant AddMissing(res, more[i..]) == AddMissing(current, more)
    {
      assert more[i..][0] == more[i] && more[i..][1..] == more[i + 1..];
      if more[i] !in resMap {
        resMap := resMap + {more[i]};
        res := res + [more[i]];
      }
    }
  }

  function Merge(m: map<string, Action>, action: Action): map<string, Action> {
    var key := ActionKey(action);
    m[key := if key in m
             then Action(action.apiVersion, action.resource, action.namespace, false,
               AddMissing(m[key].verbs, action.verbs))
             else action]
  }

  function Reduced(actions: seq<Action>): map<string, Action> {
    if actions == [] then map[] else Merge(Reduced(actions[..|actions| - 1]), actions[|actions| - 1])
  }

  /** The values of the map in some order. */
  ghost predicate Lists(res: seq<Action>, m: map<string, Action>) {
    && (forall i :: 0 <= i < |res| ==> ActionKey(res[i]) in m && m[ActionKey(res[i])] == res[i])
    && (forall i, j :: 0 <= i < j < |res| ==> ActionKey(res[i]) != ActionKey(res[j]))
    && forall k :: k in m ==> m[k] in res
  }

  method ReduceActionsByVerb(actions: seq<Action>) returns (res: seq<Action>)
    ensures Lists(res, Reduced(actions))
  {
    var resMap: map<string, Action> := map[];
    for i := 0 to |actions|
      invariant resMap == Reduced(actions[..i])
    {
      assert actions[..i + 1][..|actions[..i + 1]| - 1] == actions[..i];
      var action := actions[i];
      var req := ActionKey(action);
      if req in resMap {
        var verbs := MergeVerbs(resMap[req].verbs, action.verbs);
        resMap := resMap[req := Action(action.apiVersion, action.resource, action.namespace, false, verbs)];
      } else {
        resMap := resMap[req := action];
      }
    }
    assert actions[..|actions|] == actions;
    MapKeysAreKeys(actions);
    res := [];
    var left := resMap.Keys;
    while left != {}
      invariant left <= resMap.Keys
      invariant forall i :: 0 <= i < |res| ==>
        ActionKey(res[i]) in resMap.Keys - left && resMap[ActionKey(res[i])] == res[i]
      invariant forall i, j :: 0 <= i < j < |res| ==> ActionKey(res[i]) != ActionKey(res[j])
      invariant forall k :: k in resMap.Keys - left ==> resMap[k] in res
      decreases |left|
    {
      var k :| k in left;
      assert ActionKey(resMap[k]) == k;
      res := res + [resMap[k]];
      left := left - {k};
    }
  }

  lemma {:induction false} MapKeysAreKeys(actions: seq<Action>)
    ensures forall k :: k in Reduced(actions) ==> ActionKey(Reduced(actions)[k]) == k
  {
    if actions != [] {
      MapKeysAreKeys(actions[..|actions| - 1]);
    }
  }

  // ----- What is said, flattened -----

  datatype Denial = Denial(namespace: string, apiVersion: string, resource: string, verb: string)

  ghost predicate Says(a: Action, d: Denial) {
    a.namespace == d.namespace && a.apiVersion == d.apiVersion && a.resource == d.resource && d.verb in a.verbs
  }

  ghost predicate AnySays(actions: seq<Action>, d: Denial) {
    exists i :: 0 <= i < |actions| && Says(actions[i], d)
  }

  predicate SameTarget(a: Action, b: Action) {
    a.namespace == b.namespace && a.apiVersion == b.apiVersion && a.resource == b.resource
  }

  ghost predicate ActionKeysTellApart(actions: seq<Action>) {
    forall a, b :: a in actions && b in actions && ActionKey(a) == ActionKey(b) ==> SameTarget(a, b)
  }

  /** For each key the target of its last action and the verbs of all. */
  lemma {:induction false} ReducedEntry(actions: seq<Action>, k: string)
    ensures k in Reduced(actions) <==> exists a :: a in actions && ActionKey(a) == k
    ensures k in Reduced(actions) ==>
      exists a :: a in actions && ActionKey(a) == k && SameTarget(a, Reduced(actions)[k])
  {
    if actions != [] {
      var before, last := actions[..|actions| - 1], actions[|actions| - 1];
      ReducedEntry(before, k);
      assert actions == before + [last];
    }
  }

  lemma {:induction false} ReducedVerbs(actions: seq<Action>, k: string, v: string)
    requires k in Reduced(actions)
    ensures v in Reduced(actions)[k].verbs <==> exists a :: a in actions && ActionKey(a) == k && v in a.verbs
    ensures (forall a :: a in actions ==> Distinct(a.verbs)) ==> Distinct(Reduced(actions)[k].verbs)
  {
    var before, last := actions[..|actions| - 1], actions[|actions| - 1];
    assert actions == before + [last];
    if k in Reduced(before) {
      ReducedVerbs(before, k, v);
      if k == ActionKey(last) {
        AddMissingHas(Reduced(before)[k].verbs, last.verbs, v);
        if Distinct(Reduced(before)[k].verbs) {
          AddMissingDistinct(Reduced(before)[k].verbs, last.verbs);
        }
      }
    } else {
      ReducedEntry(before, k);
    }
  }

  ghost predicate MapSays(m: map<string, Action>, d: Denial) {
    exists k :: k in m && Says(m[k], d)
  }

  lemma ReducedSaysAll(actions: seq<Action>, d: Denial, i: nat)
    requires ActionKeysTellApart(actions) && i < |actions| && Says(actions[i], d)
    ensures MapSays(Reduced(actions), d)
  {
    var a, k := actions[i], ActionKey(actions[i]);
    assert a in actions;
    ReducedEntry(actions, k);
    ReducedVerbs(actions, k, d.verb);
    var target :| target in actions && ActionKey(target) == k && SameTarget(target, Reduced(actions)[k]);
    assert SameTarget(a, target);
    assert Says(Reduced(actions)[k], d);
  }

  lemma ReducedSaysNoMore(actions: seq<Action>, d: Denial, k: string)
    requires ActionKeysTellApart(actions) && k in Reduced(actions) && Says(Reduced(actions)[k], d)
    ensures AnySays(actions, d)
  {
    ReducedEntry(actions, k);
    ReducedVerbs(actions, k, d.verb);
    var target :| target in actions && ActionKey(target) == k && SameTarget(target, Reduced(actions)[k]);
    var a :| a in actions && ActionKey(a) == k && d.verb in a.verbs;
    assert SameTarget(a, target);
    InSays(actions, a, d);
  }

  lemma InSays(actions: seq<Action>, a: Action, d: Denial)
    requires a in actions && Says(a, d)
    ensures AnySays(actions, d)
  {
    var i :| 0 <= i < |actions| && actions[i] == a;
    assert Says(actions[i], d);
  }

  lemma ReducedKeeps(actions: seq<Action>, d: Denial)
    requires ActionKeysTellApart(actions)
    ensures MapSays(Reduced(actions), d) <==> AnySays(actions, d)
  {
    if AnySays(actions, d) {
      var i :| 0 <= i < |actions| && Says(actions[i], d);
      ReducedSaysAll(actions, d, i);
    }
    if MapSays(Reduced(actions), d) {
      var k :| k in Reduced(actions) && Says(Reduced(actions)[k], d);
      ReducedSaysNoMore(actions, d, k);
    }
  }

  /** Merging keeps what is said exactly when actions of one key have one target. */
  lemma ReduceKeepsDenialsIff(actions: seq<Action>)
    requires forall a :: a in actions ==> a.verbs != []
    ensures ActionKeysTellApart(actions) <==>
            forall d :: MapSays(Reduced(actions), d) <==> AnySays(actions, d)
  {
    if ActionKeysTellApart(actions) {
      forall d ensures MapSays(Reduced(actions), d) <==> AnySays(actions, d) {
        ReducedKeeps(actions, d);
      }
    } else {
      var a, b :| a in actions && b in actions && ActionKey(a) == ActionKey(b) && !SameTarget(a, b);
      var k := ActionKey(a);
      ReducedEntry(actions, k);
      MapKeysAreKeys(actions);
      var lost := if SameTarget(a, Reduced(actions)[k]) then b else a;
      var i :| 0 <= i < |actions| && actions[i] == lost;
      var d := Denial(lost.namespace, lost.apiVersion, lost.resource, lost.verbs[0]);
      assert Says(actions[i], d);
      assert !MapSays(Reduced(actions), d);
    }
  }

  lemma PlainTargetsTellApart(actions: seq<Action>)
    requires forall a :: a in actions ==> '/' !in a.namespace && '/' !in a.resource
    ensures ActionKeysTellApart(actions)
  {
    forall a, b | a in actions && b in actions && ActionKey(a) == ActionKey(b) ensures SameTarget(a, b) {
      SlashedTellsApart(a.namespace, a.apiVersion, a.resource, b.namespace, b.apiVersion, b.resource);
    }
  }

  /** The action at i is the only one of its key. */
  ghost predicate Alone(actions: seq<Action>, k: string, i: nat) {
    i < |actions| && ActionKey(actions[i]) == k
    && forall j :: 0 <= j < |actions| && ActionKey(actions[j]) == k ==> j == i
  }

  lemma {:induction false} MergedOrAlone(actions: seq<Action>, k: string) returns (i: nat)
    requires k in Reduced(actions)
    ensures i < |actions| && ActionKey(actions[i]) == k
    ensures Alone(actions, k, i) ==> Reduced(actions)[k] == actions[i]
    ensures !Alone(actions, k, i) ==> !Reduced(actions)[k].clusterWide
  {
    var before, last := actions[..|actions| - 1], actions[|actions| - 1];
    if k in Reduced(before) {
      i := MergedOrAlone(before, k);
      assert before[i] == actions[i];
      if k != ActionKey(last) && !Alone(before, k, i) {
        var j :| 0 <= j < |before| && ActionKey(before[j]) == k && j != i;
        assert actions[j] == before[j];
      }
      assert Alone(actions, k, i) <==> Alone(before, k, i) && k != ActionKey(last) by {
        assert forall j :: 0 <= j < |before| ==> actions[j] == before[j];
      }
    } else {
      i := |actions| - 1;
      ReducedEntry(before, k);
      forall j | 0 <= j < |before| ensures ActionKey(actions[j]) != k {
        assert actions[j] in before;
      }
    }
  }

  /** A merged action forgets that its resource is cluster-wide: only one that was never merged still says so. */
  lemma ClusterWideOnlyAlone(actions: seq<Action>, k: string)
    requires k in Reduced(actions)
    ensures Reduced(actions)[k].clusterWide <==> exists i: nat :: Alone(actions, k, i) && actions[i].clusterWide
  {
    var i := MergedOrAlone(actions, k);
    forall j: nat | Alone(actions, k, j) ensures j == i {
    }
  }

  // ----- GetForbiddenActions -----

  function RejectedBy(cluster: Cluster, items: seq<Resource>): string -> seq<Action> {
    (verb: string) => FlatMap(Rejection(cluster, verb), items)
  }

  function AllRejected(cluster: Cluster, verbs: seq<string>, items: seq<Resource>): seq<Action> {
    FlatMap(RejectedBy(cluster, items), verbs)
  }

  /** What the checks of these items come to. */
  ghost predicate Collected(cluster: Cluster, items: seq<Resource>, action: string, r: Option<seq<Action>>) {
    if action != "upgrade" then r == Rejected(cluster, action, items)
    else
      && (r.None? <==> exists v :: v in UPGRADE_VERBS && Breaks(cluster, v, items))
      && (r.Some? ==> Lists(r.value, Reduced(AllRejected(cluster, UPGRADE_VERBS, items))))
  }

  method GetForbiddenActions(cluster: Cluster, namespace: string, action: string, manifest: Option<seq<Object>>)
      returns (r: Option<seq<Action>>)
    ensures manifest.None? ==> r.None?
    ensures manifest.Some? ==> Collected(cluster, Items(namespace, manifest.value), action, r)
    ensures manifest.Some? ==> Reports(cluster, namespace, manifest.value, action, r)
  {
    if manifest.None? {
      return None;
    }
    var resources := GetResourcesToCheck(namespace, manifest.value);
    if action == "upgrade" {
      r := CheckVerbs(cluster, UPGRADE_VERBS, resources);
    } else {
      r := IsAllowed(cluster, action, resources);
    }
    CollectedReports(cluster, namespace, manifest.value, action, r);
  }

  lemma NextVerb(cluster: Cluster, verbs: seq<string>, items: seq<Resource>, i: nat)
    requires i < |verbs|
    ensures AllRejected(cluster, verbs[..i + 1], items)
         == AllRejected(cluster, verbs[..i], items) + FlatMap(Rejection(cluster, verbs[i]), items)
  {
    assert verbs[..i + 1] == verbs[..i] + [verbs[i]];
    FlatMapSnoc(RejectedBy(cluster, items), verbs[..i], verbs[i]);
  }

  /** The case of an upgrade: all verbs are needed. */
  method CheckVerbs(cluster: Cluster, verbs: seq<string>, resources: seq<Resource>) returns (r: Option<seq<Action>>)
    ensures r.None? <==> exists v :: v in verbs && Breaks(cluster, v, resources)
    ensures r.Some? ==> Lists(r.value, Reduced(AllRejected(cluster, verbs, resources)))
  {
    var forbiddenActions := [];
    for i := 0 to |verbs|
      invariant forall v :: v in verbs[..i] ==> !Breaks(cluster, v, resources)
      invariant forbiddenActions == AllRejected(cluster, verbs[..i], resources)
    {
      var v := verbs[i];
      NextVerb(cluster, verbs, resources, i);
      assert verbs[..i + 1] == verbs[..i] + [v];
      var actions := IsAllowed(cluster, v, resources);
      if actions.None? {
        assert v in verbs;
        return None;
      }
      forbiddenActions := forbiddenActions + actions.value;
    }
    assert verbs[..|verbs|] == verbs;
    if |forbiddenActions| > 0 {
      forbiddenActions := ReduceActionsByVerb(forbiddenActions);
    }
    return Some(forbiddenActions);
  }

  /** The user is denied the verb on one of the resources. */
  ghost predicate IsDenied(cluster: Cluster, resources: seq<Resource>, d: Denial) {
    exists r, namespaced :: r in resources && Denies(cluster, d.verb, r, d.resource, namespaced)
      && d.apiVersion == r.apiVersion && d.namespace == if namespaced then r.namespace else ""
  }

  lemma RejectedSays(cluster: Cluster, verb: string, items: seq<Resource>, d: Denial)
    ensures AnySays(FlatMap(Rejection(cluster, verb), items), d) <==> d.verb == verb && IsDenied(cluster, items, d)
  {
    var f := Rejection(cluster, verb);
    var actions := FlatMap(f, items);
    if AnySays(actions, d) {
      var i :| 0 <= i < |actions| && Says(actions[i], d);
      InFlatMap(f, items, actions[i]);
      var r :| r in items && actions[i] in f(r);
      JudgeMeans(cluster, verb, r);
      assert Denies(cluster, verb, r, d.resource, Judge(cluster, verb, r).namespaced);
    }
    if d.verb == verb && IsDenied(cluster, items, d) {
      var r, namespaced :| r in items && Denies(cluster, d.verb, r, d.resource, namespaced)
        && d.apiVersion == r.apiVersion && d.namespace == if namespaced then r.namespace else "";
      JudgeMeans(cluster, verb, r);
      var a := f(r)[0];
      InFlatMap(f, items, a);
      InSays(actions, a, d);
    }
  }

  lemma AllRejectedSays(cluster: Cluster, verbs: seq<string>, items: seq<Resource>, d: Denial)
    ensures AnySays(AllRejected(cluster, verbs, items), d) <==> d.verb in verbs && IsDenied(cluster, items, d)
  {
    var f := RejectedBy(cluster, items);
    var actions := AllRejected(cluster, verbs, items);
    if AnySays(actions, d) {
      var i :| 0 <= i < |actions| && Says(actions[i], d);
      InFlatMap(f, verbs, actions[i]);
      var v :| v in verbs && actions[i] in f(v);
      InSays(f(v), actions[i], d);
      RejectedSays(cluster, v, items, d);
    }
    if d.verb in verbs && IsDenied(cluster, items, d) {
      RejectedSays(cluster, d.verb, items, d);
      var i :| 0 <= i < |f(d.verb)| && Says(f(d.verb)[i], d);
      InFlatMap(f, verbs, f(d.verb)[i]);
      InSays(actions, f(d.verb)[i], d);
    }
  }

  lemma AllRejectedAre(cluster: Cluster, verbs: seq<string>, items: seq<Resource>, a: Action)
    requires a in AllRejected(cluster, verbs, items)
    ensures |a.verbs| == 1
    ensures exists v, r, namespaced :: v in verbs && r in items && Denies(cluster, v, r, a.resource, namespaced)
              && a.namespace == if namespaced then r.namespace else ""
  {
    InFlatMap(RejectedBy(cluster, items), verbs, a);
    var v :| v in verbs && a in RejectedBy(cluster, items)(v);
    InFlatMap(Rejection(cluster, v), items, a);
    var r :| r in items && a in Rejection(cluster, v)(r);
    var namespaced := Judge(cluster, v, r).namespaced;
    JudgeMeans(cluster, v, r);
    assert Denies(cluster, v, r, a.resource, namespaced);
  }

  lemma ListsSays(res: seq<Action>, m: map<string, Action>, d: Denial)
    requires Lists(res, m)
    ensures AnySays(res, d) <==> MapSays(m, d)
  {
    if AnySays(res, d) {
      var i :| 0 <= i < |res| && Says(res[i], d);
      assert Says(m[ActionKey(res[i])], d);
    }
    if MapSays(m, d) {
      var k :| k in m && Says(m[k], d);
      InSays(res, m[k], d);
    }
  }

  // ----- What is reported, over the objects of the manifest -----

  /** The user is denied the verb for one of the objects. */
  ghost predicate DeniedFor(cluster: Cluster, namespace: string, objs: seq<Object>, d: Denial) {
    exists item, namespaced :: AskedFor(namespace, objs, item)
      && Denies(cluster, d.verb, item, d.resource, namespaced)
      && d.apiVersion == item.apiVersion && d.namespace == if namespaced then item.namespace else ""
  }

  /** One of the checks of the verb fails. */
  ghost predicate FailsFor(cluster: Cluster, namespace: string, objs: seq<Object>, verb: string) {
    exists item :: AskedFor(namespace, objs, item) && Fails(cluster, verb, item)
  }

  ghost predicate IsUpgradeVerb(verb: string) {
    verb == "create" || verb == "update" || verb == "delete"
  }

  /** These are what the objects ask about, each once, in the order of the first objects that do. */
  ghost predicate ListsAsked(namespace: string, objs: seq<Object>, items: seq<Resource>) {
    && (forall item :: item in items <==> AskedFor(namespace, objs, item)) && Distinct(items)
    && exists first :: FirstAsking(namespace, objs, items, first)
  }

  /** Without an upgrade: an error exactly if a check fails, and otherwise one action for each denied item. */
  ghost predicate ReportsAction(cluster: Cluster, namespace: string, objs: seq<Object>, action: string,
                                r: Option<seq<Action>>)
  {
    exists items :: ListsAsked(namespace, objs, items) && RejectsOrFails(cluster, action, items, r)
  }

  /** Denials with one key are of one target. */
  ghost predicate TargetsTellApart(cluster: Cluster, namespace: string, objs: seq<Object>) {
    forall d: Denial, e: Denial ::
      && IsUpgradeVerb(d.verb) && DeniedFor(cluster, namespace, objs, d)
      && IsUpgradeVerb(e.verb) && DeniedFor(cluster, namespace, objs, e)
      && d.namespace + "/" + d.apiVersion + "/" + d.resource == e.namespace + "/" + e.apiVersion + "/" + e.resource
      ==> d.namespace == e.namespace && d.apiVersion == e.apiVersion && d.resource == e.resource
  }

  /** An upgrade: an error exactly if a check of one of the three verbs fails, and otherwise what is denied over all
      objects and the three verbs, with one entry per target and no verb twice. */
  ghost predicate ReportsUpgrade(cluster: Cluster, namespace: string, objs: seq<Object>, r: Option<seq<Action>>) {
    && (r.None? <==> exists verb :: IsUpgradeVerb(verb) && FailsFor(cluster, namespace, objs, verb))
    && (r.Some? ==>
        && (forall d :: AnySays(r.value, d) <==> IsUpgradeVerb(d.verb) && DeniedFor(cluster, namespace, objs, d))
        && OnePerTarget(r.value))
  }

  ghost predicate OnePerTarget(actions: seq<Action>) {
    && (forall i, j :: 0 <= i < j < |actions| ==> !SameTarget(actions[i], actions[j]))
    && forall i :: 0 <= i < |actions| ==> Distinct(actions[i].verbs)
  }

  ghost predicate Reports(cluster: Cluster, namespace: string, objs: seq<Object>, action: string,
                          r: Option<seq<Action>>)
  {
    ObjectsTellApart(namespace, objs) ==>
      if action != "upgrade" then ReportsAction(cluster, namespace, objs, action, r)
      else TargetsTellApart(cluster, namespace, objs) ==> ReportsUpgrade(cluster, namespace, objs, r)
  }

  lemma DeniedForMeans(cluster: Cluster, namespace: string, objs: seq<Object>, d: Denial)
    requires ObjectsTellApart(namespace, objs)
    ensures DeniedFor(cluster, namespace, objs, d) <==> IsDenied(cluster, Items(namespace, objs), d)
  {
    AllAskedForIff(namespace, objs);
  }

  lemma FailsForMeans(cluster: Cluster, namespace: string, objs: seq<Object>, verb: string)
    requires ObjectsTellApart(namespace, objs)
    ensures FailsFor(cluster, namespace, objs, verb) <==> Breaks(cluster, verb, Items(namespace, objs))
  {
    AllAskedForIff(namespace, objs);
    BreaksMeans(cluster, verb, Items(namespace, objs));
  }

  lemma ActionReportsDenied(cluster: Cluster, namespace: string, objs: seq<Object>, action: string)
    requires ObjectsTellApart(namespace, objs)
    ensures ReportsAction(cluster, namespace, objs, action, Rejected(cluster, action, Items(namespace, objs)))
  {
    var items := Items(namespace, objs);
    AllAskedForIff(namespace, objs);
    EachKeyOnce(Map(ToResource(namespace), objs), "");
    var first := FirstToAsk(namespace, objs);
    assert ListsAsked(namespace, objs, items);
    RejectedMeans(cluster, action, items);
  }

  lemma VerbsMean()
    ensures forall verb :: verb in UPGRADE_VERBS <==> IsUpgradeVerb(verb)
  {
    assert UPGRADE_VERBS[0] == "create" && UPGRADE_VERBS[1] == "update" && UPGRADE_VERBS[2] == "delete";
  }

  lemma TargetsMean(cluster: Cluster, namespace: string, objs: seq<Object>)
    requires ObjectsTellApart(namespace, objs) && TargetsTellApart(cluster, namespace, objs)
    ensures ActionKeysTellApart(AllRejected(cluster, UPGRADE_VERBS, Items(namespace, objs)))
  {
    var items := Items(namespace, objs);
    var actions := AllRejected(cluster, UPGRADE_VERBS, items);
    VerbsMean();
    forall a | a in actions
      ensures exists d :: Says(a, d) && IsUpgradeVerb(d.verb) && DeniedFor(cluster, namespace, objs, d)
    {
      AllRejectedAre(cluster, UPGRADE_VERBS, items, a);
      var d := Denial(a.namespace, a.apiVersion, a.resource, a.verbs[0]);
      assert Says(a, d);
      InSays(actions, a, d);
      AllRejectedSays(cluster, UPGRADE_VERBS, items, d);
      DeniedForMeans(cluster, namespace, objs, d);
    }
    forall a, b | a in actions && b in actions && ActionKey(a) == ActionKey(b) ensures SameTarget(a, b) {
      var d :| Says(a, d) && IsUpgradeVerb(d.verb) && DeniedFor(cluster, namespace, objs, d);
      var e :| Says(b, e) && IsUpgradeVerb(e.verb) && DeniedFor(cluster, namespace, objs, e);
    }
  }

  lemma UpgradeFailsMeans(cluster: Cluster, namespace: string, objs: seq<Object>)
    requires ObjectsTellApart(namespace, objs)
    ensures (exists v :: v in UPGRADE_VERBS && Breaks(cluster, v, Items(namespace, objs))) <==>
      exists verb :: IsUpgradeVerb(verb) && FailsFor(cluster, namespace, objs, verb)
  {
    VerbsMean();
    forall verb ensures FailsFor(cluster, namespace, objs, verb) <==> Breaks(cluster, verb, Items(namespace, objs)) {
      FailsForMeans(cluster, namespace, objs, verb);
    }
  }

  lemma ReportedOncePerTarget(cluster: Cluster, items: seq<Resource>, report: seq<Action>)
    requires Lists(report, Reduced(AllRejected(cluster, UPGRADE_VERBS, items)))
    ensures OnePerTarget(report)
  {
    var actions := AllRejected(cluster, UPGRADE_VERBS, items);
    forall a | a in actions ensures Distinct(a.verbs) {
      AllRejectedAre(cluster, UPGRADE_VERBS, items, a);
    }
    forall i | 0 <= i < |report| ensures Distinct(report[i].verbs) {
      ReducedVerbs(actions, ActionKey(report[i]), "");
    }
  }

  /** What an upgrade reports, flattened, is what is denied over all objects of the manifest and the three verbs. */
  lemma UpgradeReportsDenied(cluster: Cluster, namespace: string, objs: seq<Object>, report: seq<Action>, d: Denial)
    requires ObjectsTellApart(namespace, objs) && TargetsTellApart(cluster, namespace, objs)
    requires Lists(report, Reduced(AllRejected(cluster, UPGRADE_VERBS, Items(namespace, objs))))
    ensures AnySays(report, d) <==> IsUpgradeVerb(d.verb) && DeniedFor(cluster, namespace, objs, d)
  {
    var items := Items(namespace, objs);
    var actions := AllRejected(cluster, UPGRADE_VERBS, items);
    TargetsMean(cluster, namespace, objs);
    VerbsMean();
    ListsSays(report, Reduced(actions), d);
    ReducedKeeps(actions, d);
    AllRejectedSays(cluster, UPGRADE_VERBS, items, d);
    DeniedForMeans(cluster, namespace, objs, d);
  }

  lemma CollectedReports(cluster: Cluster, namespace: string, objs: seq<Object>, action: string,
                         r: Option<seq<Action>>)
    requires Collected(cluster, Items(namespace, objs), action, r)
    ensures Reports(cluster, namespace, objs, action, r)
  {
    if ObjectsTellApart(namespace, objs) {
      if action != "upgrade" {
        ActionReportsDenied(cluster, namespace, objs, action);
      } else if TargetsTellApart(cluster, namespace, objs) {
        UpgradeFailsMeans(cluster, namespace, objs);
        if r.Some? {
          ReportedOncePerTarget(cluster, Items(namespace, objs), r.value);
          forall d ensures AnySays(r.value, d) <==> IsUpgradeVerb(d.verb) && DeniedFor(cluster, namespace, objs, d) {
            UpgradeReportsDenied(cluster, namespace, objs, r.value, d);
          }
        }
      }
    }
  }

  /** Without slashes in namespaces, kinds and resource names the keys tell apart. */
  lemma PlainManifestTellsApart(cluster: Cluster, namespace: string, objs: seq<Object>)
    requires '/' !in namespace && forall obj :: obj in objs ==> '/' !in obj.namespace && '/' !in obj.kind
    requires forall list, r :: cluster.list(list).Listed? && r in cluster.list(list).resources ==> '/' !in r.name
    ensures ObjectsTellApart(namespace, objs) && TargetsTellApart(cluster, namespace, objs)
  {
    TellApartMeans(namespace, objs);
    var all := Map(ToResource(namespace), objs);
    forall r | r in all ensures '/' !in r.namespace && '/' !in r.kind {
      AskedForMeans(namespace, objs, r);
    }
    PlainNamesTellApart(all);
    forall d: Denial, e: Denial |
      && DeniedFor(cluster, namespace, objs, d) && DeniedFor(cluster, namespace, objs, e)
      && d.namespace + "/" + d.apiVersion + "/" + d.resource == e.namespace + "/" + e.apiVersion + "/" + e.resource
      ensures d.namespace == e.namespace && d.apiVersion == e.apiVersion && d.resource == e.resource
    {
      SlashedTellsApart(d.namespace, d.apiVersion, d.resource, e.namespace, e.apiVersion, e.resource);
    }
  }
}
