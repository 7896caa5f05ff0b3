/** The sockets and timers of the dashboard's kube reducer, together with the real handles behind them. */
module KubeReducer {
  import opened Wrappers
  import opened Sequences
  import opened Text

  datatype Ref = Ref(watchUrl: string, resourceUrl: string)

  /** A watched resource: the handle of its socket and the timer its error listener asks for. */
  datatype Socket = Socket(handle: nat, timerId: string)

  datatype Action = OpenWatchResource(ref: Ref) | CloseWatchResource(ref: Ref) | AddTimer(id: string)
                  | RemoveTimer(id: string) | Unrelated

  /** The reducer's state and, outside it, the browser: open sockets, error listeners with the timer they ask for,
      running intervals, and what was closed and cleared so far.  Handles are never used twice. */
  datatype World = World(
    sockets: map<string, Socket>, timers: map<string, Option<nat>>,
    open: set<nat>, listening: map<nat, string>, running: set<nat>, closed: seq<nat>, cleared: seq<nat>, next: nat)

  const INITIAL := World(map[], map[], {}, map[], {}, [], [], 0)

  function TimerOf(w: World, id: string): Option<nat> {
    if id in w.timers then w.timers[id] else None
  }

  function ClearInterval(w: World, timer: nat): World {
    w.(running := w.running - {timer}, cleared := w.cleared + [timer])
  }

  function CloseSocket(w: World, socket: nat): World {
    w.(listening := w.listening - {socket}, open := w.open - {socket}, closed := w.closed + [socket])
  }

  function Apply(w: World, action: Action): World {
    match action
    case OpenWatchResource(ref) =>
      if ref.watchUrl in w.sockets then w
      else
        w.(sockets := w.sockets[ref.watchUrl := Socket(w.next, ref.resourceUrl)],
           open := w.open + {w.next}, listening := w.listening[w.next := ref.resourceUrl], next := w.next + 1)
    case CloseWatchResource(ref) =>
      var found, timer := ref.watchUrl in w.sockets, TimerOf(w, ref.resourceUrl);
      var w1 := if found then CloseSocket(w, w.sockets[ref.watchUrl].handle) else w;
      var w2 := if timer.Some? then ClearInterval(w1, timer.value) else w1;
      w2.(sockets := w.sockets - {ref.watchUrl}, timers := w.timers[ref.resourceUrl := None])
    case AddTimer(id) =>
      if TimerOf(w, id).Some? then w
      else w.(timers := w.timers[id := Some(w.next)], running := w.running + {w.next}, next := w.next + 1)
    case RemoveTimer(id) =>
      if TimerOf(w, id).None? then w
      else ClearInterval(w, TimerOf(w, id).value).(timers := w.timers[id := None])
    case Unrelated => w
  }

  function Exec(w: World, actions: seq<Action>): World {
    if actions == [] then w else Apply(Exec(w, actions[..|actions| - 1]), actions[|actions| - 1])
  }

  class KubeStore {
    var sockets: map<string, Socket>
    var timers: map<string, Option<nat>>
    var open: set<nat>
    var listening: map<nat, string>
    var running: set<nat>
    var closed: seq<nat>
    var cleared: seq<nat>
    var next: nat

    function Now(): World
      reads this
    {
      World(sockets, timers, open, listening, running, closed, cleared, next)
    }

    constructor ()
      ensures Now() == INITIAL
    {
      sockets, timers, open, listening, running, closed, cleared, next := map[], map[], {}, map[], {}, [], [], 0;
    }

    method WatchResource(timerId: string) returns (socket: nat)
      modifies `open, `listening, `next
      ensures socket == old(next) && next == old(next) + 1
      ensures open == old(open) + {socket} && listening == old(listening)[socket := timerId]
    {
      socket := next;
      open := open + {socket};
      listening := listening[socket := timerId];
      next := next + 1;
    }

    method SetInterval() returns (timer: nat)
      modifies `running, `next
      ensures timer == old(next) && next == old(next) + 1 && running == old(running) + {timer}
    {
      timer := next;
      running := running + {timer};
      next := next + 1;
    }

    method ClearInterval(timer: nat)
      modifies `running, `cleared
      ensures running == old(running) - {timer} && cleared == old(cleared) + [timer]
    {
      running := running - {timer};
      cleared := cleared + [timer];
    }

    method Dispatch(action: Action)
      modifies this
      ensures Now() == Apply(old(Now()), action)
    {
      match action {
        case OpenWatchResource(ref) =>
          if ref.watchUrl in sockets {
            return;
          }
          var socket := WatchResource(ref.resourceUrl);
          sockets := sockets[ref.watchUrl := Socket(socket, ref.resourceUrl)];
        case CloseWatchResource(ref) =>
          var timer := if ref.resourceUrl in timers then timers[ref.resourceUrl] else None;
          if ref.watchUrl in sockets {
            var foundSocket := sockets[ref.watchUrl].handle;
            listening := listening - {foundSocket};
            open := open - {foundSocket};
            closed := closed + [foundSocket];
          }
          if timer.Some? {
            ClearInterval(timer.value);
          }
          sockets := sockets - {ref.watchUrl};
          timers := timers[ref.resourceUrl := None];
        case AddTimer(id) =>
          if id !in timers || timers[id].None? {
            var timer := SetInterval();
            timers := timers[id := Some(timer)];
          }
        case RemoveTimer(id) =>
          if id in timers && timers[id].Some? {
            ClearInterval(timers[id].value);
            timers := timers[id := None];
          }
        case Unrelated =>
      }
    }
  }

  // ----- What every run keeps -----

  ghost predicate SocketsAreLive(w: World) {
    && (forall s :: s in w.open <==> exists k :: k in w.sockets && w.sockets[k].handle == s)
    && (forall k, l :: k in w.sockets && l in w.sockets && w.sockets[k].handle == w.sockets[l].handle ==> k == l)
  }

  ghost predicate ListenersAreLive(w: World) {
    && w.listening.Keys == w.open
    && forall k :: k in w.sockets && w.sockets[k].handle in w.listening ==>
         w.listening[w.sockets[k].handle] == w.sockets[k].timerId
  }

  ghost predicate TimersAreLive(w: World) {
    && (forall t :: t in w.running <==> exists id :: id in w.timers && w.timers[id] == Some(t))
    && (forall i, j :: i in w.timers && j in w.timers && w.timers[i].Some? && w.timers[i] == w.timers[j] ==> i == j)
  }

  // Handles come from the supply; what is closed or cleared was so once and is not live.
  ghost predicate SocketsInOrder(w: World) {
    && (forall s :: s in w.open ==> s < w.next)
    && (forall s :: s in w.closed ==> s < w.next && s !in w.open)
    && Distinct(w.closed)
  }

  ghost predicate IntervalsInOrder(w: World) {
    && (forall t :: t in w.running ==> t < w.next)
    && (forall t :: t in w.cleared ==> t < w.next && t !in w.running)
    && Distinct(w.cleared)
  }

  ghost predicate Invariant(w: World) {
    SocketsAreLive(w) && ListenersAreLive(w) && TimersAreLive(w) && SocketsInOrder(w) && IntervalsInOrder(w)
  }

  lemma OpenKeepsSockets(w: World, ref: Ref)
    requires SocketsAreLive(w) && ref.watchUrl !in w.sockets && forall s :: s in w.open ==> s < w.next
    ensures SocketsAreLive(Apply(w, OpenWatchResource(ref)))
  {
    var w' := Apply(w, OpenWatchResource(ref));
    forall k | k in w.sockets ensures k in w'.sockets && w'.sockets[k] == w.sockets[k] && w.sockets[k].handle < w.next {
      assert w.sockets[k].handle in w.open;
    }
    forall s | s in w'.open ensures exists k :: k in w'.sockets && w'.sockets[k].handle == s {
      if s == w.next {
        assert w'.sockets[ref.watchUrl].handle == s;
      } else {
        var k :| k in w.sockets && w.sockets[k].handle == s;
        assert w'.sockets[k].handle == s;
      }
    }
  }

  lemma CloseKeepsSockets(w: World, ref: Ref)
    requires SocketsAreLive(w)
    ensures SocketsAreLive(Apply(w, CloseWatchResource(ref)))
  {
    var w' := Apply(w, CloseWatchResource(ref));
    forall s | s in w'.open ensures exists k :: k in w'.sockets && w'.sockets[k].handle == s {
      var k :| k in w.sockets && w.sockets[k].handle == s;
      assert k in w'.sockets;
    }
    forall k | k in w'.sockets ensures w'.sockets[k].handle in w'.open {
      assert k in w.sockets && w.sockets[k].handle in w.open;
    }
  }

  lemma ApplyKeepsSockets(w: World, action: Action)
    requires Invariant(w)
    ensures SocketsAreLive(Apply(w, action))
  {
    if action.OpenWatchResource? && action.ref.watchUrl !in w.sockets {
      OpenKeepsSockets(w, action.ref);
    } else if action.CloseWatchResource? {
      CloseKeepsSockets(w, action.ref);
    }
  }

  lemma ApplyKeepsListeners(w: World, action: Action)
    requires Invariant(w)
    ensures ListenersAreLive(Apply(w, action))
  {
    var w' := Apply(w, action);
    forall k | k in w.sockets ensures w.sockets[k].handle in w.open {
    }
    assert w'.listening.Keys == w'.open;
  }

  lemma AddKeepsTimers(w: World, id: string)
    requires TimersAreLive(w) && TimerOf(w, id).None? && forall t :: t in w.running ==> t < w.next
    ensures TimersAreLive(Apply(w, AddTimer(id)))
  {
    var w' := Apply(w, AddTimer(id));
    forall i | i in w.timers && w.timers[i].Some? ensures w.timers[i].value < w.next && w'.timers[i] == w.timers[i] {
      assert w.timers[i].value in w.running;
    }
    forall t | t in w'.running ensures exists i :: i in w'.timers && w'.timers[i] == Some(t) {
      if t == w.next {
        assert w'.timers[id] == Some(t);
      } else {
        var i :| i in w.timers && w.timers[i] == Some(t);
        assert w'.timers[i] == Some(t);
      }
    }
  }

  lemma ClearKeepsTimers(w: World, id: string, w': World)
    requires TimersAreLive(w) && w'.timers == w.timers[id := None]
    requires w'.running == w.running - if TimerOf(w, id).Some? then {TimerOf(w, id).value} else {}
    ensures TimersAreLive(w')
  {
    forall t | t in w'.running ensures exists i :: i in w'.timers && w'.timers[i] == Some(t) {
      var i :| i in w.timers && w.timers[i] == Some(t);
      assert i in w'.timers && w'.timers[i] == Some(t);
    }
    forall i | i in w'.timers && w'.timers[i].Some? ensures w'.timers[i].value in w'.running {
      assert w.timers[i] == w'.timers[i] && w.timers[i].value in w.running;
    }
  }

  lemma ApplyKeepsTimers(w: World, action: Action)
    requires Invariant(w)
    ensures TimersAreLive(Apply(w, action))
  {
    if action.AddTimer? && TimerOf(w, action.id).None? {
      AddKeepsTimers(w, action.id);
    } else if action.CloseWatchResource? {
      ClearKeepsTimers(w, action.ref.resourceUrl, Apply(w, action));
    } else if action.RemoveTimer? && TimerOf(w, action.id).Some? {
      ClearKeepsTimers(w, action.id, Apply(w, action));
    }
  }

  lemma ApplyKeepsSocketOrder(w: World, action: Action)
    requires SocketsAreLive(w) && SocketsInOrder(w)
    ensures SocketsInOrder(Apply(w, action))
  {
    if action.CloseWatchResource? && action.ref.watchUrl in w.sockets {
      assert w.sockets[action.ref.watchUrl].handle in w.open;
    }
  }

  lemma ApplyKeepsIntervalOrder(w: World, action: Action)
    requires TimersAreLive(w) && IntervalsInOrder(w)
    ensures IntervalsInOrder(Apply(w, action))
  {
    if action.CloseWatchResource? && TimerOf(w, action.ref.resourceUrl).Some? {
      assert TimerOf(w, action.ref.resourceUrl).value in w.running;
    } else if action.RemoveTimer? && TimerOf(w, action.id).Some? {
      assert TimerOf(w, action.id).value in w.running;
    }
  }

  /** In every state of every run the live sockets and intervals are those of the state, and nothing is closed or
      cleared twice. */
  lemma {:induction false} EveryRunKeepsInvariant(actions: seq<Action>)
    ensures Invariant(Exec(INITIAL, actions))
  {
    if actions != [] {
      EveryRunKeepsInvariant(actions[..|actions| - 1]);
      var w, last := Exec(INITIAL, actions[..|actions| - 1]), actions[|actions| - 1];
      ApplyKeepsSockets(w, last);
      ApplyKeepsListeners(w, last);
      ApplyKeepsTimers(w, last);
      ApplyKeepsSocketOrder(w, last);
      ApplyKeepsIntervalOrder(w, last);
    }
  }

  /** Closing leaves neither socket nor timer for the reference, ends just the handles it had, and touches no other
      key. */
  lemma CloseLeavesNeither(actions: seq<Action>, ref: Ref)
    ensures var w := Exec(INITIAL, actions);
            var w' := Apply(w, CloseWatchResource(ref));
            && ref.watchUrl !in w'.sockets && TimerOf(w', ref.resourceUrl).None?
            && w'.open == w.open - (if ref.watchUrl in w.sockets then {w.sockets[ref.watchUrl].handle} else {})
            && w'.running ==
                 w.running - (if TimerOf(w, ref.resourceUrl).Some? then {TimerOf(w, ref.resourceUrl).value} else {})
            && (forall k :: k != ref.watchUrl ==> (k in w'.sockets <==> k in w.sockets))
            && (forall k :: k != ref.watchUrl && k in w.sockets ==>
                  w'.sockets[k] == w.sockets[k] && w'.sockets[k].handle in w'.open)
            && (forall id :: id != ref.resourceUrl ==> TimerOf(w', id) == TimerOf(w, id))
            && (forall id :: id != ref.resourceUrl && TimerOf(w, id).Some? ==> TimerOf(w', id).value in w'.running)
  {
    EveryRunKeepsInvariant(actions);
    EveryRunKeepsInvariant(actions + [CloseWatchResource(ref)]);
    assert (actions + [CloseWatchResource(ref)])[..|actions|] == actions;
  }

  /** Removing a timer clears its interval, and no other; without one nothing happens. */
  lemma RemovedTimerStops(actions: seq<Action>, id: string)
    ensures var w := Exec(INITIAL, actions);
            var w' := Apply(w, RemoveTimer(id));
            && (w'.open, w'.sockets, w'.listening, w'.closed) == (w.open, w.sockets, w.listening, w.closed)
            && (forall other :: other in w.timers && other != id ==>
                  other in w'.timers && w'.timers[other] == w.timers[other]
                  && (w.timers[other].Some? ==> w.timers[other].value in w'.running))
            && if id in w.timers && w.timers[id].Some? then
                 var t := w.timers[id].value;
                 && t in w.running && w'.running == w.running - {t} && w'.cleared == w.cleared + [t]
                 && w'.timers == w.timers[id := None]
               else w' == w
  {
    EveryRunKeepsInvariant(actions);
    var w := Exec(INITIAL, actions);
    forall i | i in w.timers && w.timers[i].Some? ensures w.timers[i].value in w.running {
    }
  }

  /** Adding a timer starts a new interval for it; with one nothing happens. */
  lemma AddedTimerStarts(actions: seq<Action>, id: string)
    ensures var w := Exec(INITIAL, actions);
            var w' := Apply(w, AddTimer(id));
            && (w'.open, w'.sockets, w'.listening, w'.closed) == (w.open, w.sockets, w.listening, w.closed)
            && w'.cleared == w.cleared
            && if id in w.timers && w.timers[id].Some? then w' == w
               else exists t :: && t !in w.running && t !in w.cleared
                                && w'.running == w.running + {t} && w'.timers == w.timers[id := Some(t)]
  {
    EveryRunKeepsInvariant(actions);
    var w := Exec(INITIAL, actions);
    assert w.next !in w.running && w.next !in w.cleared;
  }

  /** Opening a watch opens a new socket for its URL, whose listener asks for the resource's timer; with one nothing
      happens. */
  lemma OpenedWatchListens(actions: seq<Action>, ref: Ref)
    ensures var w := Exec(INITIAL, actions);
            var w' := Apply(w, OpenWatchResource(ref));
            && (w'.timers, w'.running, w'.cleared, w'.closed) == (w.timers, w.running, w.cleared, w.closed)
            && if ref.watchUrl in w.sockets then w' == w
               else exists s :: && s !in w.open && s !in w.closed && w'.open == w.open + {s}
                                && w'.sockets == w.sockets[ref.watchUrl := Socket(s, ref.resourceUrl)]
                                && w'.listening == w.listening[s := ref.resourceUrl]
  {
    EveryRunKeepsInvariant(actions);
    var w := Exec(INITIAL, actions);
    assert w.next !in w.open && w.next !in w.closed;
  }

  // ----- The URLs of a reference -----

  const WATCH := "?watch=true"
  const SELECT := "&fieldSelector=metadata.name%3D"

  /** A resource of the cluster, or with an empty name the list of all of them. */
  datatype ResourceRef = ResourceRef(cluster: string, apiVersion: string, plural: string, namespaced: bool,
                                     namespace: string, name: string)
  {
    function GetResourceURL(): string {
      var group := if apiVersion == "v1" || apiVersion == "" then "api/v1" else "apis/" + apiVersion;
      "api/clusters/" + cluster + "/" + group
      + (if namespaced && namespace != "" then "/namespaces/" + namespace else "")
      + "/" + plural + (if name == "" then "" else "/" + name)
    }

    function Selector(): string {
      if name == "" then "" else SELECT + name
    }

    /** The watch is on the list, narrowed down to the name; `base` is the page's WebSocketAPIBase. */
    function WatchResourceURL(base: string): string {
      base + this.(name := "").GetResourceURL() + WATCH + Selector()
    }

    function Urls(base: string): Ref {
      Ref(WatchResourceURL(base), GetResourceURL())
    }

    /** What names the list holds no question mark; the resource's own name is free. */
    predicate Plain() {
      '?' !in cluster && '?' !in apiVersion && '?' !in plural && '?' !in namespace
    }
  }

  lemma SlashedSegments(a: string, b: string)
    ensures Split(a + ("/" + b), '/') == Split(a, '/') + Split(b, '/')
  {
    assert a + ("/" + b) == a + ['/'] + b;
    SplitConcat(a, '/', b);
  }

  lemma GroupSegments(start: string, first: string, rest: string, core: bool, other: string, version: string)
    requires '/' !in first && '/' !in rest && '/' !in other
    ensures Split(start + ("/" + (if core then first + ("/" + rest) else other + ("/" + version))), '/')
         == Split(start, '/') + if core then [first, rest] else [other] + Split(version, '/')
  {
    SplitPlain(first, '/');
    SplitPlain(rest, '/');
    SplitPlain(other, '/');
    SlashedSegments(first, rest);
    SlashedSegments(other, version);
    SlashedSegments(start, if core then first + ("/" + rest) else other + ("/" + version));
  }

  lemma SpacedSegments(group: string, namespaces: string, namespace: string)
    requires '/' !in namespaces
    ensures Split(group + ("/" + namespaces + ("/" + namespace)), '/')
         == Split(group, '/') + ([namespaces] + Split(namespace, '/'))
  {
    SplitPlain(namespaces, '/');
    SlashedSegments(namespaces, namespace);
    SlashedSegments(group, namespaces + ("/" + namespace));
    assert "/" + namespaces + ("/" + namespace) == "/" + (namespaces + ("/" + namespace));
  }

  lemma URLText(r: ResourceRef, start: string, first: string, rest: string, other: string)
    requires start == "api/clusters" && first == "api" && rest == "v1" && other == "apis"
    ensures var core := r.apiVersion == "v1" || r.apiVersion == "";
            var group := if core then first + ("/" + rest) else other + ("/" + r.apiVersion);
            var spaced := if r.namespaced && r.namespace != "" then "/namespaces/" + r.namespace else "";
            r.(name := "").GetResourceURL() == start + ("/" + r.cluster) + ("/" + group) + spaced + ("/" + r.plural)
  {
    var core := r.apiVersion == "v1" || r.apiVersion == "";
    var group := if core then first + ("/" + rest) else other + ("/" + r.apiVersion);
    assert "api/v1" == first + ("/" + rest);
    assert "apis/" + r.apiVersion == other + ("/" + r.apiVersion);
    assert "api/clusters/" == start + "/";
    assert start + "/" + r.cluster + "/" + group == start + ("/" + r.cluster) + ("/" + group);
  }

  lemma StartSegments(start: string, first: string, second: string)
    requires start == first + "/" + second && '/' !in first && '/' !in second
    ensures Split(start, '/') == [first, second]
  {
    assert start == first + ("/" + second);
    SlashedSegments(first, second);
    SplitPlain(first, '/');
    SplitPlain(second, '/');
  }

  lemma GroupURLSegments(r: ResourceRef, start: string, clusters: string, first: string, rest: string, other: string)
    requires start == first + "/" + clusters && '/' !in clusters && '/' !in first && '/' !in rest && '/' !in other
    ensures var core := r.apiVersion == "v1" || r.apiVersion == "";
            var group := if core then first + ("/" + rest) else other + ("/" + r.apiVersion);
            Split(start + ("/" + r.cluster) + ("/" + group), '/') ==
            [first, clusters] + Split(r.cluster, '/')
            + if core then [first, rest] else [other] + Split(r.apiVersion, '/')
  {
    StartSegments(start, first, clusters);
    SlashedSegments(start, r.cluster);
    var core := r.apiVersion == "v1" || r.apiVersion == "";
    GroupSegments(start + ("/" + r.cluster), first, rest, core, other, r.apiVersion);
  }

  lemma ListURLSegments(r: ResourceRef, start: string, clusters: string, first: string, rest: string, other: string,
                        namespaces: string)
    requires start == first + "/" + clusters && '/' !in clusters && '/' !in first && '/' !in rest && '/' !in other
    requires '/' !in namespaces
    requires start == "api/clusters" && first == "api" && rest == "v1" && other == "apis" && namespaces == "namespaces"
    ensures Split(r.(name := "").GetResourceURL(), '/') ==
            [first, clusters] + Split(r.cluster, '/')
            + (if r.apiVersion == "v1" || r.apiVersion == "" then [first, rest] else [other] + Split(r.apiVersion, '/'))
            + (if r.namespaced && r.namespace != "" then [namespaces] + Split(r.namespace, '/') else [])
            + Split(r.plural, '/')
  {
    URLText(r, start, first, rest, other);
    GroupURLSegments(r, start, clusters, first, rest, other);
    var core := r.apiVersion == "v1" || r.apiVersion == "";
    var list := start + ("/" + r.cluster)
                + ("/" + if core then first + ("/" + rest) else other + ("/" + r.apiVersion));
    if r.namespaced && r.namespace != "" {
      SpacedSegments(list, namespaces, r.namespace);
      assert "/namespaces/" + r.namespace == "/" + namespaces + ("/" + r.namespace);
      SlashedSegments(list + ("/" + namespaces + ("/" + r.namespace)), r.plural);
    } else {
      assert list + "" == list;
      SlashedSegments(list, r.plural);
    }
  }

  /** The segments of a resource's URL. */
  lemma ResourceURLSegments(r: ResourceRef)
    ensures Split(r.GetResourceURL(), '/') ==
            ["api", "clusters"] + Split(r.cluster, '/')
            + (if r.apiVersion == "v1" || r.apiVersion == "" then ["api", "v1"]
              else ["apis"] + Split(r.apiVersion, '/'))
            + (if r.namespaced && r.namespace != "" then ["namespaces"] + Split(r.namespace, '/') else [])
            + Split(r.plural, '/') + if r.name == "" then [] else Split(r.name, '/')
  {
    ListURLSegments(r, "api/clusters", "clusters", "api", "v1", "apis", "namespaces");
    NameComesLast(r);
    SlashedSegments(r.(name := "").GetResourceURL(), r.name);
  }

  /** The watch is on the list of the kind, narrowed down to the name. */
  lemma WatchURLIs(base: string, r: ResourceRef)
    ensures r.WatchResourceURL(base) == base + r.(name := "").GetResourceURL() + "?watch=true"
            + if r.name == "" then "" else "&fieldSelector=metadata.name%3D" + r.name
  {
  }

  lemma NameComesLast(r: ResourceRef)
    ensures r.GetResourceURL() == r.(name := "").GetResourceURL() + if r.name == "" then "" else "/" + r.name
  {
  }

  lemma NoQueryInList(r: ResourceRef)
    requires r.Plain()
    ensures '?' !in r.(name := "").GetResourceURL()
  {
  }

  lemma SameParts(base: string, x: string, s: string, y: string, t: string)
    requires '?' !in x && '?' !in y
    requires base + (x + ['?'] + ("watch=true" + s)) == base + (y + ['?'] + ("watch=true" + t))
    ensures x == y && s == t
  {
    SamePrefix(base, x + ['?'] + ("watch=true" + s), y + ['?'] + ("watch=true" + t));
    FirstMark('?', x, "watch=true" + s, y, "watch=true" + t);
    SamePrefix("watch=true", s, t);
  }

  lemma WatchParts(base: string, r: ResourceRef)
    ensures r.WatchResourceURL(base) == base + (r.(name := "").GetResourceURL() + ['?'] + ("watch=true" + r.Selector()))
  {
    var list, mark, rest := r.(name := "").GetResourceURL(), "?watch=true", "watch=true";
    assert mark == ['?'] + rest;
    assert base + list + mark + r.Selector() == base + (list + ['?'] + (rest + r.Selector()));
  }

  lemma SelectorTellsName(a: ResourceRef, b: ResourceRef)
    requires a.Selector() == b.Selector()
    ensures a.name == b.name
  {
    SamePrefix(SELECT, a.name, b.name);
  }

  /** Whatever the names: references that watch the same URL are of the same resource, so a socket's key settles which
      interval goes with it. */
  lemma SameWatchSameResource(base: string, a: ResourceRef, b: ResourceRef)
    requires a.Plain() && b.Plain() && a.WatchResourceURL(base) == b.WatchResourceURL(base)
    ensures a.name == b.name && a.GetResourceURL() == b.GetResourceURL()
  {
    WatchParts(base, a);
    WatchParts(base, b);
    NoQueryInList(a);
    NoQueryInList(b);
    SameParts(base, a.(name := "").GetResourceURL(), a.Selector(), b.(name := "").GetResourceURL(), b.Selector());
    SelectorTellsName(a, b);
    NameComesLast(a);
    NameComesLast(b);
  }

  // ----- Watching -----

  /** What getAndWatchResource makes of it: components watch and unwatch, a socket that fails asks for a timer
      through its error listener, one that speaks has the timer removed. */
  datatype Event = Watch(ref: ResourceRef) | Unwatch(ref: ResourceRef) | Fails(socket: nat) | Speaks(timerId: string)

  function ActionOf(base: string, w: World, event: Event): Action {
    match event
    case Watch(ref) => OpenWatchResource(ref.Urls(base))
    case Unwatch(ref) => CloseWatchResource(ref.Urls(base))
    case Fails(socket) => if socket in w.listening then AddTimer(w.listening[socket]) else Unrelated
    case Speaks(timerId) => RemoveTimer(timerId)
  }

  function Actions(base: string, events: seq<Event>): seq<Action> {
    if events == [] then []
    else
      var before := Actions(base, events[..|events| - 1]);
      before + [ActionOf(base, Exec(INITIAL, before), events[|events| - 1])]
  }

  function After(base: string, events: seq<Event>): World {
    Exec(INITIAL, Actions(base, events))
  }

  predicate OnPlain(event: Event) {
    match event
    case Watch(ref) => ref.Plain()
    case Unwatch(ref) => ref.Plain()
    case Fails(_) => true
    case Speaks(_) => true
  }

  /** The socket's key and timer are the two URLs of some reference. */
  ghost predicate OfOneRef(base: string, key: string, timerId: string) {
    exists ref: ResourceRef :: ref.Plain() && ref.Urls(base) == Ref(key, timerId)
  }

  ghost predicate TimersAreWatched(base: string, w: World) {
    && (forall k :: k in w.sockets ==> OfOneRef(base, k, w.sockets[k].timerId))
    && forall id :: TimerOf(w, id).Some? ==> exists k :: k in w.sockets && w.sockets[k].timerId == id
  }

  lemma UnwatchStaysWatched(base: string, w: World, ref: ResourceRef)
    requires TimersAreWatched(base, w) && ref.Plain()
    ensures TimersAreWatched(base, Apply(w, CloseWatchResource(ref.Urls(base))))
  {
    var urls := ref.Urls(base);
    var w' := Apply(w, CloseWatchResource(urls));
    if urls.watchUrl in w.sockets {
      var other: ResourceRef :| other.Plain()
        && other.Urls(base) == Ref(urls.watchUrl, w.sockets[urls.watchUrl].timerId);
      SameWatchSameResource(base, ref, other);
    }
    forall id | TimerOf(w', id).Some? ensures exists k :: k in w'.sockets && w'.sockets[k].timerId == id {
      assert TimerOf(w, id).Some?;
      var k :| k in w.sockets && w.sockets[k].timerId == id;
      assert k in w'.sockets && w'.sockets[k].timerId == id;
    }
  }

  lemma WatchStaysWatched(base: string, w: World, ref: ResourceRef)
    requires TimersAreWatched(base, w) && ref.Plain()
    ensures TimersAreWatched(base, Apply(w, OpenWatchResource(ref.Urls(base))))
  {
    var urls := ref.Urls(base);
    var w' := Apply(w, OpenWatchResource(urls));
    assert OfOneRef(base, urls.watchUrl, urls.resourceUrl);
    forall id | TimerOf(w', id).Some? ensures exists k :: k in w'.sockets && w'.sockets[k].timerId == id {
      assert TimerOf(w, id).Some?;
      var k :| k in w.sockets && w.sockets[k].timerId == id;
      assert k in w'.sockets && w'.sockets[k].timerId == id;
    }
  }

  lemma AddStaysWatched(base: string, w: World, id: string, key: string)
    requires TimersAreWatched(base, w) && key in w.sockets && w.sockets[key].timerId == id
    ensures TimersAreWatched(base, Apply(w, AddTimer(id)))
  {
    var w' := Apply(w, AddTimer(id));
    forall i | TimerOf(w', i).Some? ensures exists k :: k in w'.sockets && w'.sockets[k].timerId == i {
      if i == id {
        assert w'.sockets[key].timerId == i;
      } else {
        assert TimerOf(w, i).Some?;
      }
    }
  }

  lemma RemoveStaysWatched(base: string, w: World, id: string)
    requires TimersAreWatched(base, w)
    ensures TimersAreWatched(base, Apply(w, RemoveTimer(id)))
  {
    var w' := Apply(w, RemoveTimer(id));
    forall i | TimerOf(w', i).Some? ensures exists k :: k in w'.sockets && w'.sockets[k].timerId == i {
      assert TimerOf(w, i).Some?;
    }
  }

  lemma ListenerHasSocket(w: World, socket: nat) returns (key: string)
    requires SocketsAreLive(w) && ListenersAreLive(w) && socket in w.listening
    ensures key in w.sockets && w.sockets[key].timerId == w.listening[socket]
  {
    assert socket in w.open;
    key :| key in w.sockets && w.sockets[key].handle == socket;
  }

  lemma StepStaysWatched(base: string, w: World, event: Event)
    requires Invariant(w) && TimersAreWatched(base, w) && OnPlain(event)
    ensures TimersAreWatched(base, Apply(w, ActionOf(base, w, event)))
  {
    match event
    case Watch(ref) => WatchStaysWatched(base, w, ref);
    case Unwatch(ref) => UnwatchStaysWatched(base, w, ref);
    case Speaks(timerId) => RemoveStaysWatched(base, w, timerId);
    case Fails(socket) =>
      if socket in w.listening {
        var key := ListenerHasSocket(w, socket);
        AddStaysWatched(base, w, w.listening[socket], key);
      }
  }

  lemma RunningIsWatched(base: string, w: World)
    requires TimersAreLive(w) && TimersAreWatched(base, w)
    ensures w.sockets == map[] ==> w.running == {}
  {
    forall t | t in w.running ensures w.sockets != map[] {
      var id :| id in w.timers && w.timers[id] == Some(t);
      assert TimerOf(w, id).Some?;
      var k :| k in w.sockets && w.sockets[k].timerId == id;
    }
  }

  /** Polling only goes on for watched resources: in every run a live interval belongs to an open socket, so once all is
      unwatched no socket and no interval is left. */
  lemma {:induction false} NothingLeftBehind(base: string, events: seq<Event>)
    requires forall e :: e in events ==> OnPlain(e)
    ensures Invariant(After(base, events)) && TimersAreWatched(base, After(base, events))
    ensures After(base, events).sockets == map[] ==> After(base, events).open == {} && After(base, events).running == {}
  {
    EveryRunKeepsInvariant(Actions(base, events));
    if events != [] {
      var before, last := events[..|events| - 1], events[|events| - 1];
      NothingLeftBehind(base, before);
      var actions := Actions(base, before);
      assert Actions(base, events)[..|Actions(base, events)| - 1] == actions;
      StepStaysWatched(base, After(base, before), last);
    }
    RunningIsWatched(base, After(base, events));
  }

  lemma AfterOne(base: string, events: seq<Event>, e: Event)
    ensures After(base, events + [e]) == Apply(After(base, events), ActionOf(base, After(base, events), e))
  {
    assert (events + [e])[..|events|] == events;
    var before := Actions(base, events);
    var action := ActionOf(base, Exec(INITIAL, before), e);
    assert (before + [action])[..|before|] == before;
  }

  /** What an event does in any run: a watched resource has a socket, an unwatched one neither socket nor interval, a
      socket that fails an interval, and where it speaks there is none. */
  lemma EventEffects(base: string, events: seq<Event>, e: Event)
    ensures var w := After(base, events);
            var w' := After(base, events + [e]);
            match e
            case Watch(ref) =>
              exists k :: && k in w'.sockets && k == ref.WatchResourceURL(base) && w'.sockets[k].handle in w'.open
                          && (k !in w.sockets ==> w'.sockets[k].timerId == ref.GetResourceURL())
            case Unwatch(ref) =>
              && ref.WatchResourceURL(base) !in w'.sockets
              && (ref.GetResourceURL() in w'.timers ==> w'.timers[ref.GetResourceURL()].None?)
            case Fails(socket) =>
              socket in w.listening ==>
                var id := w.listening[socket];
                id in w'.timers && w'.timers[id].Some? && w'.timers[id].value in w'.running
            case Speaks(id) =>
              (id in w'.timers ==> w'.timers[id].None?)
              && (id in w.timers && w.timers[id].Some? ==> w.timers[id].value !in w'.running)
  {
    AfterOne(base, events, e);
    EveryRunKeepsInvariant(Actions(base, events));
    EveryRunKeepsInvariant(Actions(base, events + [e]));
  }

  // ----- Why list names must be plain -----

  /** Closing through a reference with another resource URL leaves the interval running without a socket. */
  lemma InconsistentCloseLeaks(watchUrl: string, timerId: string, other: string)
    requires timerId != other
    ensures var w := Exec(INITIAL, [OpenWatchResource(Ref(watchUrl, timerId)), AddTimer(timerId),
                                    CloseWatchResource(Ref(watchUrl, other))]);
            w.sockets == map[] && w.running == {1}
  {
    var a1, a2 := OpenWatchResource(Ref(watchUrl, timerId)), AddTimer(timerId);
    var a3 := CloseWatchResource(Ref(watchUrl, other));
    assert [a1, a2, a3][..2] == [a1, a2] && [a1, a2][..1] == [a1] && [a1][..0] == [];
    var w1 := Apply(INITIAL, a1);
    assert Exec(INITIAL, [a1]) == w1;
    var w2 := Apply(w1, a2);
    assert Exec(INITIAL, [a1, a2]) == w2;
    assert Exec(INITIAL, [a1, a2, a3]) == Apply(w2, a3);
  }

  /** A resource with a question mark in its name, and a kind with one that spells out the selector for it. */
  function Marked(ref: ResourceRef, n: string): (ResourceRef, ResourceRef) {
    (ref.(name := n + WATCH), ref.(plural := ref.plural + (WATCH + SELECT + n), name := ""))
  }

  lemma LongerPlural(ref: ResourceRef, more: string)
    ensures ref.(plural := ref.plural + more, name := "").GetResourceURL() == ref.(name := "").GetResourceURL() + more
  {
  }

  lemma Regroup(base: string, list: string, watch: string, selector: string, n: string)
    ensures base + list + watch + (selector + (n + watch)) == base + (list + (watch + selector + n)) + watch
  {
  }

  lemma MarkedWatchUrls(base: string, ref: ResourceRef, n: string)
    ensures var (a, b) := Marked(ref, n); a.WatchResourceURL(base) == b.WatchResourceURL(base)
  {
    var (a, b) := Marked(ref, n);
    LongerPlural(ref, WATCH + SELECT + n);
    assert a.(name := "") == ref.(name := "") && b.(name := "") == b;
    assert a.name != "" && a.Selector() == SELECT + (n + WATCH) && b.Selector() == "";
    Regroup(base, ref.(name := "").GetResourceURL(), WATCH, SELECT, n);
  }

  lemma MarkedUrls(base: string, ref: ResourceRef, n: string)
    ensures var (a, b) := Marked(ref, n);
            a.WatchResourceURL(base) == b.WatchResourceURL(base) && a.GetResourceURL() != b.GetResourceURL()
  {
    var (a, b) := Marked(ref, n);
    var list, more := ref.(name := "").GetResourceURL(), WATCH + SELECT + n;
    MarkedWatchUrls(base, ref, n);
    NameComesLast(a);
    LongerPlural(ref, more);
    assert (list + ("/" + a.name))[|list|] == '/' && (list + more)[|list|] == '?';
  }

  lemma WatchFailUnwatch(base: string, a: ResourceRef, b: ResourceRef)
    ensures Actions(base, [Watch(a), Fails(0), Unwatch(b)])
            == [OpenWatchResource(a.Urls(base)), AddTimer(a.GetResourceURL()), CloseWatchResource(b.Urls(base))]
  {
    var e1, e2, e3 := Watch(a), Fails(0), Unwatch(b);
    var a1, a2, a3 := OpenWatchResource(a.Urls(base)), AddTimer(a.GetResourceURL()), CloseWatchResource(b.Urls(base));
    assert [e1, e2, e3][..2] == [e1, e2] && [e1, e2][..1] == [e1] && [e1][..0] == [];
    assert Actions(base, [e1]) == [a1];
    assert [a1][..0] == [] && Exec(INITIAL, [a1]) == Apply(INITIAL, a1);
    assert Actions(base, [e1, e2]) == [a1, a2];
    assert Actions(base, [e1, e2, e3]) == [a1, a2, a3];
  }

  /** Question marks in the names a list has break the protocol: watching the one, which fails, and unwatching the other
      leaves an interval running for no socket. */
  lemma QuestionMarkLeaks(base: string, ref: ResourceRef, n: string)
    ensures var (a, b) := Marked(ref, n);
            var w := After(base, [Watch(a), Fails(0), Unwatch(b)]);
            w.sockets == map[] && w.running == {1}
  {
    var (a, b) := Marked(ref, n);
    MarkedUrls(base, ref, n);
    WatchFailUnwatch(base, a, b);
    InconsistentCloseLeaks(a.WatchResourceURL(base), a.GetResourceURL(), b.GetResourceURL());
  }
}
