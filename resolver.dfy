/** The dependency resolver: Kahn's algorithm over the projects'
    `dependencies` lists, with the ready queue kept in increasing key order. */
module Resolver {
  import opened Wrappers
  import opened StringOrder
  import opened Config
  import opened Kahn

  datatype ResolutionResult = ResolutionResult(
    executionOrder: seq<string>,
    /** Each project with at least one dependency, mapped to its list. */
    dependencies: map<string, seq<string>>)

  datatype ResolveError =
    | MissingDependency(project: string, dependency: string)
    | CircularDependency

  function Message(e: ResolveError): (m: string)
    ensures e.CircularDependency? ==> m == "circular dependency detected"
    ensures e.MissingDependency? ==> HasPrefixOf("project " + e.project + " depends on " + e.dependency, m)
  {
    match e
    case MissingDependency(p, d) => "project " + p + " depends on " + d + ", but " + d + " was not found"
    case CircularDependency => "circular dependency detected"
  }

  predicate HasPrefixOf(p: string, s: string) {
    |p| <= |s| && s[..|p|] == p
  }

  ghost function DeclaredDependencies(projects: Projects): map<string, seq<string>> {
    map k | k in projects && Deps(projects, k) != [] :: Deps(projects, k)
  }

  /** `graph[d]` lists each project of `scanned` once per occurrence of `d`
      among its dependencies, and nothing else. */
  ghost predicate EdgesOf(projects: Projects, scanned: set<string>, graph: map<string, seq<string>>) {
    graph.Keys == projects.Keys
    && forall d, k :: d in graph ==>
         multiset(graph[d])[k] == if k in scanned && k in projects then multiset(Deps(projects, k))[d] else 0
  }

  /** The complete dependency graph, with edges from dependency to dependent. */
  ghost predicate EdgesFrom(projects: Projects, graph: map<string, seq<string>>) {
    EdgesOf(projects, projects.Keys, graph)
  }

  /** `graph` is `graph0` with an edge to `key` from each entry of `added`. */
  ghost predicate EdgesAdded(graph0: map<string, seq<string>>, graph: map<string, seq<string>>,
                             key: string, added: seq<string>) {
    graph.Keys == graph0.Keys
    && forall d, k :: d in graph ==>
         multiset(graph[d])[k] == multiset(graph0[d])[k] + if k == key then multiset(added)[d] else 0
  }

  lemma EdgesAddedStep(graph0: map<string, seq<string>>, graph: map<string, seq<string>>,
                       key: string, added: seq<string>, dep: string)
    requires EdgesAdded(graph0, graph, key, added) && dep in graph
    ensures EdgesAdded(graph0, graph[dep := graph[dep] + [key]], key, added + [dep])
  {
  }

  lemma EdgesOfStep(projects: Projects, scanned: set<string>, graph0: map<string, seq<string>>,
                    graph: map<string, seq<string>>, key: string)
    requires EdgesOf(projects, scanned, graph0) && key in projects && key !in scanned
    requires EdgesAdded(graph0, graph, key, Deps(projects, key))
    ensures EdgesOf(projects, scanned + {key}, graph)
  {
  }

  /** Each project of `scanned` has as many incoming edges as declared
      dependencies, every other project none. */
  ghost predicate DegreesOf(projects: Projects, scanned: set<string>, inDegree: map<string, int>) {
    inDegree.Keys == projects.Keys
    && forall k :: k in projects ==> inDegree[k] == if k in scanned then |Deps(projects, k)| else 0
  }

  /** `dependencies` holds the declared list of each project of `scanned`
      that has one. */
  ghost predicate RecordedFor(projects: Projects, scanned: set<string>, dependencies: map<string, seq<string>>) {
    (forall k :: k in dependencies <==> k in scanned && k in projects && Deps(projects, k) != [])
    && forall k :: k in dependencies ==> k in projects && dependencies[k] == Deps(projects, k)
  }

  /** The state of the loop over project `key`'s dependencies after its
      first `i` entries. */
  ghost predicate Recording(projects: Projects, key: string, graph0: map<string, seq<string>>,
                            inDegree0: map<string, int>, dependencies0: map<string, seq<string>>, i: nat,
                            graph: map<string, seq<string>>, inDegree: map<string, int>,
                            dependencies: map<string, seq<string>>) {
    key in projects && key in inDegree0 && i <= |Deps(projects, key)|
    && (forall d :: d in Deps(projects, key)[..i] ==> d in projects)
    && EdgesAdded(graph0, graph, key, Deps(projects, key)[..i])
    && inDegree == inDegree0[key := inDegree0[key] + i]
    && dependencies == if i == 0 then dependencies0 else dependencies0[key := Deps(projects, key)[..i]]
  }

  lemma RecordingStart(projects: Projects, key: string, graph: map<string, seq<string>>,
                       inDegree: map<string, int>, dependencies: map<string, seq<string>>)
    requires key in projects && key in inDegree
    ensures Recording(projects, key, graph, inDegree, dependencies, 0, graph, inDegree, dependencies)
  {
    assert inDegree[key := inDegree[key] + 0] == inDegree;
  }

  lemma RecordingStep(projects: Projects, key: string, graph0: map<string, seq<string>>,
                      inDegree0: map<string, int>, dependencies0: map<string, seq<string>>, i: nat,
                      graph: map<string, seq<string>>, inDegree: map<string, int>,
                      dependencies: map<string, seq<string>>)
    requires Recording(projects, key, graph0, inDegree0, dependencies0, i, graph, inDegree, dependencies)
    requires key !in dependencies0 && graph0.Keys == projects.Keys
    requires i < |Deps(projects, key)| && Deps(projects, key)[i] in projects
    ensures var dep := Deps(projects, key)[i];
      Recording(projects, key, graph0, inDegree0, dependencies0, i + 1,
                graph[dep := graph[dep] + [key]], inDegree[key := inDegree[key] + 1],
                dependencies[key := (if key in dependencies then dependencies[key] else []) + [dep]])
  {
    var list := Deps(projects, key);
    var dep := list[i];
    TakeOneMore(list, i);
    EdgesAddedStep(graph0, graph, key, list[..i], dep);
    UpdateTwice(inDegree0, key, inDegree0[key] + i, inDegree0[key] + i + 1);
    if i == 0 {
      assert list[..1] == [dep];
    } else {
      UpdateTwice(dependencies0, key, list[..i], list[..i + 1]);
    }
  }

  /** One iteration of the first loop of ResolveExecutionOrder: the edges,
      in-degree and recorded list of project `key`, or the first of its
      dependencies that names no project. */
  method RecordDependencies(projects: Projects, key: string, graph: map<string, seq<string>>,
                            inDegree: map<string, int>, dependencies: map<string, seq<string>>)
    returns (graph': map<string, seq<string>>, inDegree': map<string, int>,
             dependencies': map<string, seq<string>>, missing: Option<ResolveError>)
    requires key in projects && key !in dependencies
    requires graph.Keys == projects.Keys && inDegree.Keys == projects.Keys
    ensures missing.Some? ==>
      var e := missing.value;
      e.MissingDependency? && e.project == key
      && e.dependency in Deps(projects, key) && e.dependency !in projects
    ensures missing.None? ==>
      Recording(projects, key, graph, inDegree, dependencies, |Deps(projects, key)|, graph', inDegree', dependencies')
  {
    graph', inDegree', dependencies' := graph, inDegree, dependencies;
    var list := projects[key].config.dependencies;
    RecordingStart(projects, key, graph, inDegree, dependencies);
    var i := 0;
    while i < |list|
      invariant Recording(projects, key, graph, inDegree, dependencies, i, graph', inDegree', dependencies')
    {
      var dep := list[i];
      if dep !in projects {
        return graph', inDegree', dependencies', Some(MissingDependency(key, dep));
      }
      graph', inDegree', dependencies' := RecordEdge(projects, key, graph, inDegree, dependencies, i, graph', inDegree', dependencies');
      i := i + 1;
    }
    missing := None;
  }

  /** The body of the loop over project `key`'s dependencies, for a
      dependency that names a project: the edge from it to `key`, one more
      incoming edge for `key`, and the dependency appended to `key`'s
      recorded list. */
  method RecordEdge(projects: Projects, key: string, graph0: map<string, seq<string>>,
                    inDegree0: map<string, int>, dependencies0: map<string, seq<string>>, i: nat,
                    graph: map<string, seq<string>>, inDegree: map<string, int>,
                    dependencies: map<string, seq<string>>)
    returns (graph': map<string, seq<string>>, inDegree': map<string, int>, dependencies': map<string, seq<string>>)
    requires Recording(projects, key, graph0, inDegree0, dependencies0, i, graph, inDegree, dependencies)
    requires key !in dependencies0 && graph0.Keys == projects.Keys
    requires i < |Deps(projects, key)| && Deps(projects, key)[i] in projects
    ensures Recording(projects, key, graph0, inDegree0, dependencies0, i + 1, graph', inDegree', dependencies')
  {
    var dep := projects[key].config.dependencies[i];
    RecordingStep(projects, key, graph0, inDegree0, dependencies0, i, graph, inDegree, dependencies);
    graph' := graph[dep := graph[dep] + [key]];
    inDegree' := inDegree[key := inDegree[key] + 1];
    dependencies' := dependencies[key := (if key in dependencies then dependencies[key] else []) + [dep]];
  }

  /** The state of the first loop after the projects of `scanned`. */
  ghost predicate Collected(projects: Projects, scanned: set<string>, graph: map<string, seq<string>>,
                            inDegree: map<string, int>, dependencies: map<string, seq<string>>) {
    scanned <= projects.Keys
    && (forall k, d :: k in scanned && d in Deps(projects, k) ==> d in projects)
    && EdgesOf(projects, scanned, graph)
    && DegreesOf(projects, scanned, inDegree)
    && RecordedFor(projects, scanned, dependencies)
  }

  lemma CollectedStart(projects: Projects)
    ensures Collected(projects, {}, map k | k in projects :: [], map k | k in projects :: 0, map[])
  {
  }

  lemma CollectedStep(projects: Projects, scanned: set<string>, graph: map<string, seq<string>>,
                      inDegree: map<string, int>, dependencies: map<string, seq<string>>, key: string,
                      graph': map<string, seq<string>>, inDegree': map<string, int>,
                      dependencies': map<string, seq<string>>)
    requires Collected(projects, scanned, graph, inDegree, dependencies) && key in projects && key !in scanned
    requires Recording(projects, key, graph, inDegree, dependencies, |Deps(projects, key)|, graph', inDegree', dependencies')
    ensures Collected(projects, scanned + {key}, graph', inDegree', dependencies')
  {
    var list := Deps(projects, key);
    TakeAll(list);
    EdgesOfStep(projects, scanned, graph, graph', key);
    KnownStep(projects, scanned, key);
    DegreesOfStep(projects, scanned, inDegree, key);
    RecordedForStep(projects, scanned, dependencies, key, dependencies');
  }

  lemma KnownStep(projects: Projects, scanned: set<string>, key: string)
    requires scanned <= projects.Keys
    requires forall k, d :: k in scanned && d in Deps(projects, k) ==> d in projects
    requires key in projects && forall d :: d in Deps(projects, key) ==> d in projects
    ensures forall k, d :: k in scanned + {key} && d in Deps(projects, k) ==> d in projects
  {
  }

  lemma DegreesOfStep(projects: Projects, scanned: set<string>, inDegree: map<string, int>, key: string)
    requires DegreesOf(projects, scanned, inDegree) && key in projects && key !in scanned
    ensures DegreesOf(projects, scanned + {key}, inDegree[key := inDegree[key] + |Deps(projects, key)|])
  {
  }

  lemma RecordedForStep(projects: Projects, scanned: set<string>, dependencies: map<string, seq<string>>,
                        key: string, dependencies': map<string, seq<string>>)
    requires RecordedFor(projects, scanned, dependencies) && key in projects && key !in scanned
    requires dependencies' == if Deps(projects, key) == [] then dependencies else dependencies[key := Deps(projects, key)]
    ensures RecordedFor(projects, scanned + {key}, dependencies')
  {
  }

  lemma CollectedAll(projects: Projects, graph: map<string, seq<string>>,
                     inDegree: map<string, int>, dependencies: map<string, seq<string>>)
    requires Collected(projects, projects.Keys, graph, inDegree, dependencies)
    ensures DependenciesKnown(projects) && EdgesFrom(projects, graph)
    ensures dependencies == DeclaredDependencies(projects)
  {
    RecordedAll(projects, dependencies);
  }

  lemma RecordedAll(projects: Projects, dependencies: map<string, seq<string>>)
    requires RecordedFor(projects, projects.Keys, dependencies)
    ensures dependencies == DeclaredDependencies(projects)
  {
    var declared := DeclaredDependencies(projects);
    assert dependencies.Keys == declared.Keys;
    forall k | k in dependencies ensures dependencies[k] == declared[k] {
    }
  }

  /** The first loop of ResolveExecutionOrder, over the projects in map
      order: records an edge from each dependency to its dependent and
      counts each project's dependencies, stopping at the first dependency
      that names no project. */
  method CollectEdges(projects: Projects)
    returns (graph: map<string, seq<string>>, inDegree: map<string, int>,
             dependencies: map<string, seq<string>>, missing: Option<ResolveError>)
    ensures missing.Some? ==>
      var e := missing.value;
      e.MissingDependency? && e.project in projects
      && e.dependency in Deps(projects, e.project) && e.dependency !in projects
    ensures missing.None? ==>
      DependenciesKnown(projects) && EdgesFrom(projects, graph)
      && DegreesOf(projects, projects.Keys, inDegree)
      && dependencies == DeclaredDependencies(projects)
    ensures !DependenciesKnown(projects) ==> missing.Some?
  {
    graph := map k | k in projects :: [];
    inDegree := map k | k in projects :: 0;
    dependencies := map[];
    CollectedStart(projects);
    var keys := EnumerateKeys(projects);
    ghost var scanned: set<string> := {};
    ElemsEmpty<string>();
    var n := 0;
    while n < |keys|
      invariant 0 <= n <= |keys|
      invariant scanned == Elems(keys[..n])
      invariant Collected(projects, scanned, graph, inDegree, dependencies)
    {
      var key := keys[n];
      assert key !in scanned by {
        assert forall i :: 0 <= i < n ==> keys[i] != keys[n];
      }
      ghost var (graph0, inDegree0, dependencies0) := (graph, inDegree, dependencies);
      var m;
      graph, inDegree, dependencies, m := RecordDependencies(projects, key, graph, inDegree, dependencies);
      if m.Some? {
        return graph, inDegree, dependencies, m;
      }
      CollectedStep(projects, scanned, graph0, inDegree0, dependencies0, key, graph, inDegree, dependencies);
      TakeOneMore(keys, n);
      ElemsAppend(keys[..n], key);
      scanned := scanned + {key};
      n := n + 1;
    }
    TakeAll(keys);
    CollectedAll(projects, graph, inDegree, dependencies);
    missing := None;
  }

  /** The second loop of ResolveExecutionOrder: the projects without
      dependencies, sorted. */
  method InitialQueue(projects: Projects, inDegree: map<string, int>) returns (queue: seq<string>)
    requires DegreesOf(projects, projects.Keys, inDegree)
    ensures StrictlySorted(queue)
    ensures forall k :: k in queue <==> Ready(projects, {}, k)
  {
    var degreeKeys := EnumerateKeys(inDegree);
    queue := [];
    var j := 0;
    while j < |degreeKeys|
      invariant 0 <= j <= |degreeKeys|
      invariant NoDuplicates(queue)
      invariant forall k :: k in queue <==> k in degreeKeys[..j] && k in inDegree && inDegree[k] == 0
    {
      var key := degreeKeys[j];
      TakeOneMore(degreeKeys, j);
      if inDegree[key] == 0 {
        assert key !in degreeKeys[..j];
        queue := queue + [key];
      }
      j := j + 1;
    }
    TakeAll(degreeKeys);
    SortDistinct(queue);
    ghost var unsorted := queue;
    queue := Sort(queue);
    forall k ensures k in queue <==> Ready(projects, {}, k) {
      assert k in queue <==> k in Elems(unsorted);
      if k in projects && inDegree[k] != 0 {
        assert Deps(projects, k)[0] in Deps(projects, k);
      }
    }
  }

  /** The insertion into the ready queue: before the first greater key, or
      at the end. */
  method InsertSorted(x: string, queue: seq<string>) returns (q: seq<string>)
    ensures q == InsertBeforeGreater(x, queue)
  {
    var i := 0;
    while i < |queue| && !Less(x, queue[i])
      invariant 0 <= i <= |queue|
      invariant InsertBeforeGreater(x, queue) == queue[..i] + InsertBeforeGreater(x, queue[i..])
    {
      assert queue[i..][1..] == queue[i + 1..];
      TakeOneMore(queue, i);
      i := i + 1;
    }
    q := queue[..i] + [x] + queue[i..];
  }

  /** The queue holds exactly the keys that are ready. */
  ghost predicate QueueReady(projects: Projects, done: set<string>, queue: seq<string>) {
    StrictlySorted(queue) && forall k :: k in queue <==> Ready(projects, done, k)
  }

  /** Every emitted key's dependencies were emitted. */
  ghost predicate Closed(projects: Projects, done: set<string>) {
    forall k, d :: k in done && k in projects && d in Deps(projects, k) ==> d in done
  }

  /** Each project's in-degree counts its dependencies not yet emitted. */
  ghost predicate DegreesPending(projects: Projects, done: set<string>, inDegree: map<string, int>) {
    inDegree.Keys == projects.Keys
    && forall k :: k in projects ==> inDegree[k] == Pending(Deps(projects, k), done)
  }

  /** The head of an increasing queue of exactly the ready keys is the least
      ready key. */
  lemma HeadIsLeastReady(projects: Projects, done: set<string>, queue: seq<string>)
    requires QueueReady(projects, done, queue) && |queue| > 0
    ensures LeastReady(projects, done, queue[0])
    ensures forall k :: k in queue[1..] <==> Ready(projects, done, k) && k != queue[0]
  {
    forall k' | Ready(projects, done, k') ensures k' == queue[0] || Less(queue[0], k') {
      var idx :| 0 <= idx < |queue| && queue[idx] == k';
    }
    forall k ensures k in queue[1..] <==> Ready(projects, done, k) && k != queue[0] {
      if k in queue[1..] {
        var idx :| 0 <= idx < |queue[1..]| && queue[1..][idx] == k;
        assert Less(queue[0], queue[idx + 1]);
        LessIrreflexive(k);
      }
      if k in queue && k != queue[0] {
        var idx :| 0 <= idx < |queue| && queue[idx] == k;
        assert queue[1..][idx - 1] == k;
      }
    }
  }

  lemma ExtendKahnPrefix(projects: Projects, order: seq<string>, x: string)
    requires KahnPrefix(projects, order)
    requires LeastReady(projects, Elems(order), x)
    ensures KahnPrefix(projects, order + [x])
  {
    var o := order + [x];
    forall i | 0 <= i < |o| ensures LeastReady(projects, Elems(o[..i]), o[i]) {
      if i < |order| {
        assert o[..i] == order[..i];
      } else {
        assert o[..i] == order;
      }
    }
  }

  /** A project listed under `current` in the graph depends on it, so it
      has not been emitted, and it is listed no more often than it names
      `current` among its pending dependencies. */
  lemma DependentPending(projects: Projects, graph: map<string, seq<string>>, done: set<string>,
                         current: string, dependents: seq<string>, m: nat)
    requires EdgesFrom(projects, graph) && Ready(projects, done, current) && Closed(projects, done)
    requires multiset(dependents) == multiset(graph[current]) && m < |dependents|
    ensures dependents[m] in projects && dependents[m] !in done + {current}
    ensures multiset(dependents[..m + 1])[dependents[m]] <= Pending(Deps(projects, dependents[m]), done)
  {
    var dependent := dependents[m];
    assert dependent in multiset(dependents);
    assert dependent in projects;
    assert current in Deps(projects, dependent);
    assert dependents == dependents[..m + 1] + dependents[m + 1..];
    PendingStep(Deps(projects, dependent), done, current);
  }

  /** In the inner loop: each project's in-degree is what was pending before
      `current` was emitted, less the edges released so far. */
  ghost predicate DegreesReleased(projects: Projects, done: set<string>, inDegree: map<string, int>,
                                  released: seq<string>) {
    inDegree.Keys == projects.Keys
    && forall k :: k in projects ==> inDegree[k] == Pending(Deps(projects, k), done) - multiset(released)[k]
  }

  /** In the inner loop: the queue holds the projects not emitted whose
      in-degree has reached zero. */
  ghost predicate QueueZero(projects: Projects, after: set<string>, inDegree: map<string, int>, queue: seq<string>) {
    inDegree.Keys == projects.Keys
    && StrictlySorted(queue)
    && forall k :: k in queue <==> k in projects && k !in after && inDegree[k] == 0
  }

  lemma ReleaseOne(projects: Projects, done: set<string>, after: set<string>, inDegree: map<string, int>,
                   queue: seq<string>, released: seq<string>, dependent: string)
    requires DegreesReleased(projects, done, inDegree, released) && QueueZero(projects, after, inDegree, queue)
    requires dependent in projects && dependent !in after
    requires multiset(released + [dependent])[dependent] <= Pending(Deps(projects, dependent), done)
    ensures var d := inDegree[dependent := inDegree[dependent] - 1];
      DegreesReleased(projects, done, d, released + [dependent])
      && (d[dependent] == 0 ==> QueueZero(projects, after, d, InsertBeforeGreater(dependent, queue)))
      && (d[dependent] != 0 ==> QueueZero(projects, after, d, queue))
  {
    var d := inDegree[dependent := inDegree[dependent] - 1];
    assert multiset(released + [dependent]) == multiset(released) + multiset{dependent};
    if d[dependent] == 0 {
      assert dependent !in queue;
      InsertKeepsStrictlySorted(dependent, queue);
      var q := InsertBeforeGreater(dependent, queue);
      forall k ensures k in q <==> k in queue || k == dependent {
        assert k in q <==> k in multiset(q);
        assert k in queue <==> k in multiset(queue);
      }
    }
  }

  lemma ReleaseStart(projects: Projects, done: set<string>, current: string, inDegree: map<string, int>,
                     queue: seq<string>)
    requires DegreesPending(projects, done, inDegree) && StrictlySorted(queue)
    requires forall k :: k in queue <==> Ready(projects, done, k) && k != current
    requires current !in done
    ensures DegreesReleased(projects, done, inDegree, [])
    ensures QueueZero(projects, done + {current}, inDegree, queue)
  {
    forall k | k in projects ensures Pending(Deps(projects, k), done) == 0 <==> forall d :: d in Deps(projects, k) ==> d in done {
      PendingZero(Deps(projects, k), done);
    }
  }

  lemma ReleaseEnd(projects: Projects, graph: map<string, seq<string>>, done: set<string>, current: string,
                   inDegree: map<string, int>, queue: seq<string>, released: seq<string>)
    requires EdgesFrom(projects, graph) && current in projects && current !in done
    requires multiset(released) == multiset(graph[current])
    requires DegreesReleased(projects, done, inDegree, released)
    requires QueueZero(projects, done + {current}, inDegree, queue)
    ensures DegreesPending(projects, done + {current}, inDegree)
    ensures QueueReady(projects, done + {current}, queue)
  {
    var after := done + {current};
    forall k | k in projects ensures inDegree[k] == Pending(Deps(projects, k), after) {
      PendingStep(Deps(projects, k), done, current);
    }
    forall k ensures k in queue <==> Ready(projects, after, k) {
      if k in projects {
        PendingZero(Deps(projects, k), after);
      }
    }
  }

  /** The inner loop of Kahn's algorithm: after `current` is emitted, each
      project that depends on it loses one pending dependency per
      occurrence, and those left with none join the queue in order. */
  method Release(projects: Projects, graph: map<string, seq<string>>, current: string, ghost done: set<string>,
                 inDegree: map<string, int>, queue: seq<string>)
    returns (inDegree': map<string, int>, queue': seq<string>)
    requires EdgesFrom(projects, graph)
    requires Ready(projects, done, current) && Closed(projects, done)
    requires DegreesPending(projects, done, inDegree)
    requires StrictlySorted(queue)
    requires forall k :: k in queue <==> Ready(projects, done, k) && k != current
    ensures DegreesPending(projects, done + {current}, inDegree')
    ensures QueueReady(projects, done + {current}, queue')
  {
    ghost var after := done + {current};
    ReleaseStart(projects, done, current, inDegree, queue);
    inDegree', queue' := inDegree, queue;
    var dependents := Sort(graph[current]);
    var m := 0;
    while m < |dependents|
      invariant 0 <= m <= |dependents|
      invariant DegreesReleased(projects, done, inDegree', dependents[..m])
      invariant QueueZero(projects, after, inDegree', queue')
    {
      var dependent := dependents[m];
      TakeOneMore(dependents, m);
      DependentPending(projects, graph, done, current, dependents, m);
      ReleaseOne(projects, done, after, inDegree', queue', dependents[..m], dependent);
      inDegree' := inDegree'[dependent := inDegree'[dependent] - 1];
      if inDegree'[dependent] == 0 {
        queue' := InsertSorted(dependent, queue');
      }
      m := m + 1;
    }
    TakeAll(dependents);
    ReleaseEnd(projects, graph, done, current, inDegree', queue', dependents);
  }

  /** The state of the main loop of Kahn's algorithm after emitting
      `order`. */
  ghost predicate Emitting(projects: Projects, order: seq<string>, inDegree: map<string, int>, queue: seq<string>) {
    Elems(order) <= projects.Keys && |order| <= |projects|
    && QueueReady(projects, Elems(order), queue)
    && DegreesPending(projects, Elems(order), inDegree)
    && Closed(projects, Elems(order))
    && KahnPrefix(projects, order)
  }

  /** One iteration of the main loop: take the smallest ready key, emit it,
      and release the projects that depend on it. */
  method EmitNext(projects: Projects, graph: map<string, seq<string>>, order: seq<string>,
                  inDegree: map<string, int>, queue: seq<string>)
    returns (order': seq<string>, inDegree': map<string, int>, queue': seq<string>)
    requires EdgesFrom(projects, graph) && Emitting(projects, order, inDegree, queue) && |queue| > 0
    ensures Emitting(projects, order', inDegree', queue') && |order'| == |order| + 1
  {
    var current := queue[0];
    ghost var done := Elems(order);
    EmitReady(projects, order, inDegree, queue);
    inDegree', queue' := Release(projects, graph, current, done, inDegree, queue[1..]);
    order' := order + [current];
    EmittedOne(projects, order, current, inDegree', queue');
  }

  /** The head of the queue is the least ready key, and the rest of the
      queue the other ready keys. */
  lemma EmitReady(projects: Projects, order: seq<string>, inDegree: map<string, int>, queue: seq<string>)
    requires Emitting(projects, order, inDegree, queue) && |queue| > 0
    ensures LeastReady(projects, Elems(order), queue[0])
    ensures StrictlySorted(queue[1..])
    ensures forall k :: k in queue[1..] <==> Ready(projects, Elems(order), k) && k != queue[0]
  {
    HeadIsLeastReady(projects, Elems(order), queue);
  }

  /** Emitting the least ready key, once its dependents are released,
      keeps the state of the main loop. */
  lemma EmittedOne(projects: Projects, order: seq<string>, current: string,
                   inDegree: map<string, int>, queue: seq<string>)
    requires KahnPrefix(projects, order) && Closed(projects, Elems(order))
    requires LeastReady(projects, Elems(order), current)
    requires DegreesPending(projects, Elems(order) + {current}, inDegree)
    requires QueueReady(projects, Elems(order) + {current}, queue)
    ensures Emitting(projects, order + [current], inDegree, queue)
  {
    ExtendKahnPrefix(projects, order, current);
    ElemsAppend(order, current);
    KahnDistinct(projects, order + [current]);
  }

  /** The main loop of Kahn's algorithm, until the queue is empty. */
  method Drain(projects: Projects, graph: map<string, seq<string>>, inDegree0: map<string, int>,
               queue0: seq<string>) returns (order: seq<string>)
    requires EdgesFrom(projects, graph)
    requires DegreesOf(projects, projects.Keys, inDegree0)
    requires QueueReady(projects, {}, queue0)
    ensures IsKahnOrder(projects, order)
  {
    var inDegree := inDegree0;
    var queue := queue0;
    order := [];
    ElemsEmpty<string>();
    forall k | k in projects ensures inDegree[k] == Pending(Deps(projects, k), {}) {
      PendingNone(Deps(projects, k));
    }
    while |queue| > 0
      invariant Emitting(projects, order, inDegree, queue)
      decreases |projects| - |order|
    {
      order, inDegree, queue := EmitNext(projects, graph, order, inDegree, queue);
    }
  }

  /** `ResolveExecutionOrder`: fails on the first dependency that names no
      project, fails with a cycle when Kahn's algorithm cannot emit every
      project, and otherwise returns the Kahn order with smallest-key
      tie-breaking, which is a topological order. */
  method ResolveExecutionOrder(projects: Projects) returns (r: Result<ResolutionResult, ResolveError>)
    ensures r.Err? && r.error.MissingDependency? ==>
      var e := r.error;
      e.project in projects && e.dependency in Deps(projects, e.project) && e.dependency !in projects
    ensures r.Err? && r.error.CircularDependency? ==>
      DependenciesKnown(projects) && forall t :: !IsTopological(projects, t)
    ensures r.Ok? ==>
      IsTopological(projects, r.value.executionOrder)
      && IsKahnOrder(projects, r.value.executionOrder)
      && r.value.dependencies == DeclaredDependencies(projects)
    ensures !DependenciesKnown(projects) ==> r.Err? && r.error.MissingDependency?
  {
    var graph, inDegree, dependencies, missing := CollectEdges(projects);
    if missing.Some? {
      return Err(missing.value);
    }
    var queue := InitialQueue(projects, inDegree);
    var order := Drain(projects, graph, inDegree, queue);
    if |order| != |projects| {
      KahnIncomplete(projects, order);
      return Err(CircularDependency);
    }
    KahnComplete(projects, order);
    return Ok(ResolutionResult(order, dependencies));
  }

  /** Whether `list` names `target`: the inner loop of GetDependents, which
      stops at the first match. */
  method ListsDependency(list: seq<string>, target: string) returns (found: bool)
    ensures found <==> target in list
  {
    for i := 0 to |list|
      invariant target !in list[..i]
    {
      if list[i] == target {
        return true;
      }
      TakeOneMore(list, i);
    }
    TakeAll(list);
    return false;
  }

  /** `GetDependents`: the projects whose dependency list names
      `projectKey`, sorted, each once. */
  method GetDependents(projects: Projects, projectKey: string) returns (dependents: seq<string>)
    ensures StrictlySorted(dependents)
    ensures forall k :: k in dependents <==> k in projects && projectKey in Deps(projects, k)
  {
    var keys := EnumerateKeys(projects);
    var found: seq<string> := [];
    var n := 0;
    while n < |keys|
      invariant 0 <= n <= |keys|
      invariant NoDuplicates(found)
      invariant forall k :: k in found <==> k in keys[..n] && k in projects && projectKey in Deps(projects, k)
    {
      var key := keys[n];
      TakeOneMore(keys, n);
      var hit := ListsDependency(projects[key].config.dependencies, projectKey);
      if hit {
        assert key !in keys[..n] by {
          assert forall i :: 0 <= i < n ==> keys[i] != keys[n];
        }
        found := found + [key];
      }
      n := n + 1;
    }
    TakeAll(keys);
    SortDistinct(found);
    dependents := Sort(found);
    forall k ensures k in dependents <==> k in found {
      assert k in dependents <==> k in Elems(dependents);
    }
  }

  /** Some order runs every project after its dependencies. */
  ghost predicate Orderable(projects: Projects) {
    exists t :: IsTopological(projects, t)
  }

  /** `ValidateDependencies`: no error exactly when every dependency names
      a project and the dependencies admit a topological order. */
  method ValidateDependencies(projects: Projects) returns (err: Option<ResolveError>)
    ensures err.None? <==> DependenciesKnown(projects) && Orderable(projects)
    ensures err.Some? && err.value.MissingDependency? ==>
      err.value.project in projects && err.value.dependency in Deps(projects, err.value.project)
      && err.value.dependency !in projects
  {
    var r := ResolveExecutionOrder(projects);
    if r.Ok? {
      TopologicalKnown(projects, r.value.executionOrder);
      return None;
    }
    return Some(r.error);
  }

  /** A project with the given dependencies and nothing else configured. */
  function Bare(name: string, deps: seq<string>): AppProject {
    AppProject(AppConfig(name, "", "", deps, map[], [], map[]), name)
  }

  /** Three projects without dependencies, keyed b, a and c, run as a, b, c. */
  method ScenarioTieBreak() returns (r: Result<ResolutionResult, ResolveError>)
    ensures r.Ok? && r.value.executionOrder == ["a", "b", "c"]
  {
    var projects := map["b" := Bare("b", []), "a" := Bare("a", []), "c" := Bare("c", [])];
    var expected := ["a", "b", "c"];
    TieBreakOrder(projects, expected);
    r := ResolveExecutionOrder(projects);
    if r.Ok? {
      KahnOrderUnique(projects, r.value.executionOrder, expected);
    } else {
      KahnComplete(projects, expected);
    }
  }

  lemma TieBreakOrder(projects: Projects, expected: seq<string>)
    requires projects == map["b" := Bare("b", []), "a" := Bare("a", []), "c" := Bare("c", [])]
    requires expected == ["a", "b", "c"]
    ensures IsKahnOrder(projects, expected) && |expected| == |projects|
  {
    assert Elems(expected[..0]) == {};
    assert expected[..1] == ["a"] && expected[..2] == ["a", "b"];
    assert Elems(expected[..1]) == {"a"};
    assert Elems(expected[..2]) == {"a", "b"};
    assert Elems(expected) == {"a", "b", "c"};
    assert projects.Keys == {"a", "b", "c"};
    assert Less("a", "b") && Less("a", "c") && Less("b", "c");
  }

  /** `shared/db` runs before `core/svc`, which depends on it. */
  method ScenarioChain() returns (r: Result<ResolutionResult, ResolveError>)
    ensures r.Ok? && r.value.executionOrder == ["shared/db", "core/svc"]
    ensures r.value.dependencies == map["core/svc" := ["shared/db"]]
  {
    var projects := map["shared/db" := Bare("db", []), "core/svc" := Bare("svc", ["shared/db"])];
    var expected := ["shared/db", "core/svc"];
    ChainOrder(projects, expected);
    r := ResolveExecutionOrder(projects);
    if r.Ok? {
      KahnOrderUnique(projects, r.value.executionOrder, expected);
    } else {
      KahnComplete(projects, expected);
    }
  }

  lemma ChainOrder(projects: Projects, expected: seq<string>)
    requires projects == map["shared/db" := Bare("db", []), "core/svc" := Bare("svc", ["shared/db"])]
    requires expected == ["shared/db", "core/svc"]
    ensures IsKahnOrder(projects, expected) && |expected| == |projects|
    ensures DeclaredDependencies(projects) == map["core/svc" := ["shared/db"]]
  {
    assert projects.Keys == {"shared/db", "core/svc"};
    assert "shared/db" != "core/svc";
    ChainFirst(projects);
    ChainSecond(projects);
    assert expected[..1] == ["shared/db"];
    assert Elems(expected[..0]) == {};
    assert Elems(expected[..1]) == {"shared/db"};
    assert Elems(expected) == {"shared/db", "core/svc"};
  }

  lemma ChainFirst(projects: Projects)
    requires projects == map["shared/db" := Bare("db", []), "core/svc" := Bare("svc", ["shared/db"])]
    ensures LeastReady(projects, {}, "shared/db")
  {
    assert "shared/db" in Deps(projects, "core/svc");
  }

  lemma ChainSecond(projects: Projects)
    requires projects == map["shared/db" := Bare("db", []), "core/svc" := Bare("svc", ["shared/db"])]
    ensures LeastReady(projects, {"shared/db"}, "core/svc")
    ensures forall k :: !Ready(projects, {"shared/db", "core/svc"}, k)
  {
  }

  /** Two projects that depend on each other cannot be ordered. */
  method ScenarioCycle() returns (r: Result<ResolutionResult, ResolveError>)
    ensures r == Err(CircularDependency)
  {
    var projects := map["x" := Bare("x", ["y"]), "y" := Bare("y", ["x"])];
    forall t ensures !IsTopological(projects, t) {
      MutualNotOrderable(projects, t);
    }
    r := ResolveExecutionOrder(projects);
    assert DependenciesKnown(projects);
  }

  lemma MutualNotOrderable(projects: Projects, t: seq<string>)
    requires projects == map["x" := Bare("x", ["y"]), "y" := Bare("y", ["x"])]
    ensures !IsTopological(projects, t)
  {
    if |t| > 0 && t[0] in projects {
      assert Deps(projects, t[0])[0] !in t[..0];
    } else if |t| > 0 {
      assert t[0] in Elems(t);
    } else {
      assert "x" !in Elems(t);
    }
  }
}
