/** The exporter's two reachability worklists: each returns the least closed set,
    which is exactly what some chain of references leads to. */
module Worklists {
  import opened Json
  import opened RefRewriting

  const V2 := "#/definitions/v2/"

  /** `s` is the least set holding `start` and closed under `next`. */
  ghost predicate Closed(s: set<string>, start: set<string>, next: string -> set<string>) {
    start <= s && forall n :: n in s ==> next(n) <= s
  }

  ghost predicate LeastClosed(s: set<string>, start: set<string>, next: string -> set<string>) {
    Closed(s, start, next) && forall t :: Closed(t, start, next) ==> s <= t
  }

  lemma LeastClosedUnique(s: set<string>, t: set<string>, start: set<string>, next: string -> set<string>)
    requires LeastClosed(s, start, next) && LeastClosed(t, start, next)
    ensures s == t
  {
    assert s <= t && t <= s;
  }

  /** A chain of names, the first one started from, each next one a successor of the one before. */
  ghost predicate IsPath(p: seq<string>, start: set<string>, next: string -> set<string>) {
    p != [] && p[0] in start && forall i :: 0 < i < |p| ==> p[i] in next(p[i - 1])
  }

  ghost predicate PathTo(n: string, start: set<string>, next: string -> set<string>) {
    exists p :: IsPath(p, start, next) && p[|p| - 1] == n
  }

  lemma {:induction false} PathStaysInside(p: seq<string>, s: set<string>, start: set<string>,
                                           next: string -> set<string>)
    requires IsPath(p, start, next) && Closed(s, start, next)
    ensures p[|p| - 1] in s
    decreases |p|
  {
    if |p| > 1 {
      PathStaysInside(p[..|p| - 1], s, start, next);
    }
  }

  /** The least closed set is the set of names some chain leads to. */
  lemma LeastClosedIsReachability(s: set<string>, start: set<string>, next: string -> set<string>)
    requires LeastClosed(s, start, next)
    ensures forall n :: n in s <==> PathTo(n, start, next)
  {
    var t := set n | n in s && PathTo(n, start, next);
    forall n | n in start ensures n in t {
      assert IsPath([n], start, next) && [n][|[n]| - 1] == n;
    }
    forall n | n in t ensures next(n) <= t {
      var p :| IsPath(p, start, next) && p[|p| - 1] == n;
      forall d | d in next(n) ensures d in t {
        var q := p + [d];
        assert IsPath(q, start, next) && q[|q| - 1] == d;
      }
    }
    assert Closed(t, start, next);
    forall n | PathTo(n, start, next) ensures n in s {
      var p :| IsPath(p, start, next) && p[|p| - 1] == n;
      PathStaysInside(p, s, start, next);
    }
  }

  // ---------------------------------------------------------------- root dependencies

  predicate IsNonV2Ref(r: string) {
    DEFS <= r && !(V2 <= r)
  }

  /** `collect_non_v2_refs`: what follows `#/definitions/`, tail and all. */
  function NonV2Names(v: Json): set<string> {
    set r | r in Refs(v) && IsNonV2Ref(r) :: r[|DEFS|..]
  }

  function NonV2Deps(definitions: map<string, Json>): string -> set<string> {
    (name: string) => if name in definitions then NonV2Names(definitions[name]) else {}
  }

  function AllNonV2Deps(definitions: map<string, Json>): set<string> {
    set n, d | n in definitions && d in NonV2Names(definitions[n]) :: d
  }

  function Elements(s: seq<string>): set<string> {
    set x | x in s
  }

  lemma ElementsAppend(s: seq<string>, x: string)
    ensures Elements(s + [x]) == Elements(s) + {x}
  {
    assert forall y :: y in s + [x] <==> y in s || y == x;
  }

  lemma ElementsPop(s: seq<string>)
    requires s != []
    ensures Elements(s) == Elements(s[..|s| - 1]) + {s[|s| - 1]}
  {
    assert s == s[..|s| - 1] + [s[|s| - 1]];
    ElementsAppend(s[..|s| - 1], s[|s| - 1]);
  }

  /** Lists a hash set in some order. */
  method ListSet(s: set<string>) returns (list: seq<string>)
    ensures Elements(list) == s
  {
    list := [];
    var rest := s;
    while rest != {}
      invariant rest <= s && Elements(list) == s - rest
      decreases rest
    {
      var x :| x in rest;
      ElementsAppend(list, x);
      rest, list := rest - {x}, list + [x];
    }
  }

  method PushUnseen(deps: set<string>, seen: set<string>, stack: seq<string>) returns (stack': seq<string>)
    ensures Elements(stack') == Elements(stack) + (deps - seen)
  {
    stack' := stack;
    var rest := deps;
    while rest != {}
      invariant rest <= deps
      invariant Elements(stack') == Elements(stack) + ((deps - rest) - seen)
      decreases rest
    {
      var dep :| dep in rest;
      rest := rest - {dep};
      if dep !in seen {
        ElementsAppend(stack', dep);
        stack' := stack' + [dep];
      }
    }
  }

  /** Visiting a known name makes known only what every closed set holds. */
  lemma VisitStaysLeast(known: set<string>, more: set<string>, name: string, start: set<string>,
                        next: string -> set<string>)
    requires name in known && more <= known + next(name)
    requires forall t :: Closed(t, start, next) ==> known <= t
    ensures forall t :: Closed(t, start, next) ==> more <= t
  {
    forall t | Closed(t, start, next) ensures more <= t {
      assert known <= t && next(name) <= t;
    }
  }

  /** `collect_definition_dependencies`, for whatever order the hash sets are visited in. */
  method CollectDefinitionDependencies(definitions: map<string, Json>, names: set<string>) returns (seen: set<string>)
    ensures LeastClosed(seen, names, NonV2Deps(definitions))
  {
    ghost var next := NonV2Deps(definitions);
    ghost var universe := names + AllNonV2Deps(definitions);
    seen := {};
    var toProcess := ListSet(names);
    while toProcess != []
      invariant seen + Elements(toProcess) <= universe
      invariant names <= seen + Elements(toProcess)
      invariant forall n :: n in seen ==> next(n) <= seen + Elements(toProcess)
      invariant forall t :: Closed(t, names, next) ==> seen + Elements(toProcess) <= t
      decreases universe - seen, |toProcess|
    {
      ghost var known := seen + Elements(toProcess);
      var name := toProcess[|toProcess| - 1];
      ElementsPop(toProcess);
      toProcess := toProcess[..|toProcess| - 1];
      if name in seen {
        continue;
      }
      seen := seen + {name};
      if name !in definitions {
        continue;
      }
      var deps := NonV2Names(definitions[name]);
      assert deps == next(name);
      assert forall d :: d in deps ==> d in AllNonV2Deps(definitions);
      toProcess := PushUnseen(deps, seen, toProcess);
      assert seen + Elements(toProcess) == known + next(name);
      VisitStaysLeast(known, seen + Elements(toProcess), name, names, next);
    }
  }

  // ---------------------------------------------------------------- local definitions

  predicate IsMapKey(key: string, defsKey: string) {
    key == defsKey || key == "$defs" || key == "definitions"
  }

  function LocalName(r: string, defsKey: string): Option<string> {
    match StripPrefix(r, "#/" + defsKey + "/")
    case Some(rest) => Some(FirstSegment(rest))
    case None => None
  }

  /** The definition names referenced by a set of references. */
  function LocalNamesOf(refs: set<string>, defsKey: string): set<string> {
    set r | r in refs && LocalName(r, defsKey).Some? :: LocalName(r, defsKey).value
  }

  /** The names `collect_local_definition_refs` meets: everywhere in the value. */
  function LocalNames(v: Json, defsKey: string): set<string> {
    LocalNamesOf(Refs(v), defsKey)
  }

  /** The references found without ever entering a member named like a definition map. */
  function RefsOutsideMaps(v: Json, defsKey: string): set<string> {
    (match RefHere(v) case Some(r) => {r} case None => {}) +
    match v
    case Arr(items) => set i, r | 0 <= i < |items| && r in RefsOutsideMaps(items[i], defsKey) :: r
    case Obj(members) =>
      set k, r | k in members && !IsMapKey(k, defsKey) && r in RefsOutsideMaps(members[k], defsKey) :: r
    case _ => {}
  }

  function LocalDeps(definitions: map<string, Json>, defsKey: string): string -> set<string> {
    (name: string) => if name in definitions then LocalNames(definitions[name], defsKey) else {}
  }

  /** One collecting walk: each name met for the first time is marked and queued. */
  method Enqueue(names: set<string>, queue: seq<string>, reachable: set<string>)
    returns (queue': seq<string>, reachable': set<string>)
    ensures reachable' == reachable + names
    ensures Elements(queue') == Elements(queue) + (names - reachable)
    ensures names <= reachable ==> queue' == queue
  {
    queue', reachable' := queue, reachable;
    var rest := names;
    while rest != {}
      invariant rest <= names && reachable' == reachable + (names - rest)
      invariant Elements(queue') == Elements(queue) + ((names - rest) - reachable)
      invariant names <= reachable ==> queue' == queue
      decreases rest
    {
      var name :| name in rest;
      rest := rest - {name};
      if name !in reachable' {
        ElementsAppend(queue', name);
        reachable' := reachable' + {name};
        queue' := queue' + [name];
      }
    }
  }

  /** What the root itself refers to, outside its definition maps. */
  function RootNames(schema: Json, defsKey: string): set<string> {
    LocalNamesOf(RefsOutsideMaps(schema, defsKey), defsKey)
  }

  function AllLocalDeps(definitions: map<string, Json>, defsKey: string): set<string> {
    set n, d | n in definitions && d in LocalNames(definitions[n], defsKey) :: d
  }

  lemma DepsAreKnown(definitions: map<string, Json>, defsKey: string, n: string)
    requires n in definitions
    ensures LocalNames(definitions[n], defsKey) <= AllLocalDeps(definitions, defsKey)
    ensures LocalDeps(definitions, defsKey)(n) == LocalNames(definitions[n], defsKey)
  {
  }

  /** Everything marked is forced by closure, and what is marked but not waiting has been expanded. */
  ghost predicate Marking(marked: set<string>, waiting: set<string>, start: set<string>, next: string -> set<string>) {
    && waiting <= marked && start <= marked
    && (forall n :: n in marked - waiting ==> next(n) <= marked)
    && (forall t :: Closed(t, start, next) ==> marked <= t)
  }

  lemma ExpandOne(marked: set<string>, waiting: set<string>, rest: set<string>, n: string, start: set<string>,
                  next: string -> set<string>)
    requires Marking(marked, waiting, start, next) && waiting == rest + {n}
    ensures Marking(marked + next(n), rest + (next(n) - marked), start, next)
  {
  }

  /** The marking loop of `reachable_local_definitions`: what is marked but not queued has been expanded. */
  method DrainQueue(definitions: map<string, Json>, defsKey: string, start: set<string>, queue0: seq<string>)
    returns (reachable: set<string>)
    requires Elements(queue0) == start
    ensures LeastClosed(reachable, start, LocalDeps(definitions, defsKey))
  {
    ghost var next := LocalDeps(definitions, defsKey);
    ghost var universe := start + AllLocalDeps(definitions, defsKey);
    var queue := queue0;
    reachable := start;
    while queue != []
      invariant Marking(reachable, Elements(queue), start, next) && reachable <= universe
      decreases universe - reachable, |queue|
    {
      var name := queue[|queue| - 1];
      ElementsPop(queue);
      ExpandOne(reachable, Elements(queue), Elements(queue[..|queue| - 1]), name, start, next);
      queue := queue[..|queue| - 1];
      if name in definitions {
        var names := LocalNames(definitions[name], defsKey);
        DepsAreKnown(definitions, defsKey, name);
        queue, reachable := Enqueue(names, queue, reachable);
      }
    }
  }

  /** `reachable_local_definitions` */
  method ReachableLocalDefinitions(schema: Json, defsKey: string) returns (reachable: set<string>)
    ensures GetObj(schema, defsKey).None? ==> reachable == {}
    ensures GetObj(schema, defsKey).Some? ==>
      LeastClosed(reachable, RootNames(schema, defsKey), LocalDeps(GetObj(schema, defsKey).value, defsKey))
  {
    if GetObj(schema, defsKey).None? {
      return {};
    }
    var queue;
    queue, reachable := Enqueue(RootNames(schema, defsKey), [], {});
    reachable := DrainQueue(GetObj(schema, defsKey).value, defsKey, reachable, queue);
  }
}
