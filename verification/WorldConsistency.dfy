/** The verifier's World State checks, exact against a declarative reading, and the proof
    that every state the World State service can reach passes them. */
module WorldConsistency {
  import opened Basics
  import opened Graphs
  import opened Consistency
  import opened WorldModel
  import WorldSpec
  import WorldGraphs

  function ParentCode(kind: Kind): Code {
    match kind
    case Project => ProjectParentCycle
    case Goal => GoalParentCycle
    case _ => TaskParentCycle
  }

  // ----- what the checks mean

  ghost predicate DependenciesPass(w: World) {
    Acyclic(w.deps) && forall e :: e in w.deps ==> IsTaskRow(w, e.0) && IsTaskRow(w, e.1)
  }

  predicate IsTaskRow(w: World, id: Id) {
    id in w.rows && id in w.entities && w.entities[id].kind == Task
  }

  /** The decision's predecessor, if any, is superseded by it. */
  predicate PredecessorPasses(w: World, id: Id)
    requires id in w.decisions
  {
    w.decisions[id].supersedes.Some? ==>
      var p := w.decisions[id].supersedes.value;
      p in w.decisions && p in w.entities && w.decisions[p].status == DSuperseded && w.entities[p].supersededBy == Some(id)
  }

  /** The entity's successor, if any, exists and has the same type. */
  predicate SuccessorPasses(w: World, id: Id)
    requires id in w.entities
  {
    w.entities[id].supersededBy.Some? ==>
      w.entities[id].supersededBy.value in w.entities
      && w.entities[w.entities[id].supersededBy.value].kind == w.entities[id].kind
  }

  ghost predicate ChainsPass(w: World) {
    && (forall id {:trigger PredecessorPasses(w, id)} :: id in w.decisions ==> PredecessorPasses(w, id))
    && (forall id {:trigger SuccessorPasses(w, id)} :: id in w.entities ==> SuccessorPasses(w, id))
    && Acyclic(SupersedeEdges(w))
  }

  ghost predicate ParentsPass(w: World) {
    Acyclic(ParentEdges(w, Task)) && Acyclic(ParentEdges(w, Project)) && Acyclic(ParentEdges(w, Goal))
  }

  ghost predicate WorldPasses(w: World) {
    DependenciesPass(w) && ChainsPass(w) && ParentsPass(w)
  }

  // ----- the checks

  /** Reports a cycle in the parent links of a kind, exactly when there is one. */
  method VerifyParentCycles(verifier: ConsistencyVerifier, w: World, kind: Kind)
    modifies verifier
    ensures SoundSince(ParentEdges(w, kind), ParentCode(kind), old(verifier.issues), verifier.issues)
    ensures verifier.issues == old(verifier.issues) <==> Acyclic(ParentEdges(w, kind))
  {
    var adjacency := map id | id in w.rows && id in w.entities && w.entities[id].kind == kind && ParentOf(w, id).Ref? ::
      {ParentOf(w, id).id};
    assert Edges(adjacency) == ParentEdges(w, kind);
    verifier.VerifyDirectedCycles(adjacency, ParentCode(kind));
  }

  method DependencyAdjacency(deps: set<Edge>) returns (adjacency: Adjacency)
    ensures Edges(adjacency) == deps
  {
    adjacency := map[];
    var left := deps;
    while left != {}
      invariant left <= deps && Edges(adjacency) == deps - left
      decreases left
    {
      var e :| e in left;
      var known := if e.0 in adjacency then adjacency[e.0] else {};
      AddedLink(adjacency, e);
      adjacency := adjacency[e.0 := known + {e.1}];
      left := left - {e};
    }
  }

  lemma AddedLink(adjacency: Adjacency, e: Edge)
    ensures var known := if e.0 in adjacency then adjacency[e.0] else {};
            Edges(adjacency[e.0 := known + {e.1}]) == Edges(adjacency) + {e}
  {
    var after := adjacency[e.0 := (if e.0 in adjacency then adjacency[e.0] else {}) + {e.1}];
    forall x: Edge ensures x in Edges(after) <==> x in Edges(adjacency) + {e} {
      assert x == (x.0, x.1);
    }
  }

  method VerifyDependencies(verifier: ConsistencyVerifier, w: World)
    modifies verifier
    ensures Appends(old(verifier.issues), verifier.issues)
    ensures verifier.issues == old(verifier.issues) <==> DependenciesPass(w)
    ensures NamedLinks(old(verifier.issues), verifier.issues, DanglingTaskDependency) ==
            set e | e in w.deps && !(&& e.0 in w.rows && e.0 in w.entities && w.entities[e.0].kind == Task
                                     && e.1 in w.rows && e.1 in w.entities && w.entities[e.1].kind == Task)
    ensures Named(old(verifier.issues), verifier.issues, TaskDependencyCycle) == {} <==> Acyclic(w.deps)
    ensures forall id :: id in Named(old(verifier.issues), verifier.issues, TaskDependencyCycle) ==> OnCycle(w.deps, id)
  {
    var dangling := set e | e in w.deps && !(IsTaskRow(w, e.0) && IsTaskRow(w, e.1));
    assert dangling == {} <==> forall e :: e in w.deps ==> e !in dangling;
    verifier.ReportEachLink(DanglingTaskDependency, dangling);
    ghost var first := verifier.issues;
    var adjacency := DependencyAdjacency(w.deps);
    verifier.VerifyDirectedCycles(adjacency, TaskDependencyCycle);
    DependenciesReported(w.deps, old(verifier.issues), first, verifier.issues, dangling);
  }

  lemma DependenciesReported(edges: set<Edge>, i0: seq<Issue>, i1: seq<Issue>, i2: seq<Issue>, dangling: set<Edge>)
    requires Appends(i0, i1) && (i1 == i0 <==> dangling == {}) && SoundSince(edges, TaskDependencyCycle, i1, i2)
    requires forall c :: Named(i0, i1, c) == {}
    requires forall c :: NamedLinks(i0, i1, c) == if c == DanglingTaskDependency then dangling else {}
    ensures Appends(i0, i2) && (i2 == i0 <==> dangling == {} && i2 == i1)
    ensures NamedLinks(i0, i2, DanglingTaskDependency) == dangling
    ensures Named(i0, i2, TaskDependencyCycle) == {} <==> i2 == i1
    ensures forall v :: v in Named(i0, i2, TaskDependencyCycle) ==> OnCycle(edges, v)
  {
    SoundNames(edges, TaskDependencyCycle, i1, i2);
    AppendsOver(i0, i1, i2);
    NamedOver(i0, i1, i2, DanglingTaskDependency);
    NamedOver(i0, i1, i2, TaskDependencyCycle);
  }

  method VerifySupersedeChains(verifier: ConsistencyVerifier, w: World)
    modifies verifier
    ensures Appends(old(verifier.issues), verifier.issues)
    ensures verifier.issues == old(verifier.issues) <==> ChainsPass(w)
    ensures forall id: Id :: id in Named(old(verifier.issues), verifier.issues, InvalidSupersedeChain) <==>
              || (&& id in w.decisions && w.decisions[id].supersedes.Some?
                  && var p := w.decisions[id].supersedes.value;
                     !(&& p in w.decisions && p in w.entities && w.decisions[p].status == DSuperseded
                       && w.entities[p].supersededBy == Some(id)))
              || (&& id in w.entities && w.entities[id].supersededBy.Some?
                  && var next := w.entities[id].supersededBy.value;
                     !(next in w.entities && w.entities[next].kind == w.entities[id].kind))
    ensures Named(old(verifier.issues), verifier.issues, SupersedeCycle) == {} <==> Acyclic(SupersedeEdges(w))
    ensures forall id :: id in Named(old(verifier.issues), verifier.issues, SupersedeCycle) ==> OnCycle(SupersedeEdges(w), id)
  {
    var unlinked := set id | id in w.decisions && !PredecessorPasses(w, id);
    assert unlinked == {} <==> forall id {:trigger PredecessorPasses(w, id)} :: id in w.decisions ==> id !in unlinked;
    verifier.ReportEach(InvalidSupersedeChain, unlinked);
    ghost var first := verifier.issues;
    var astray := set id | id in w.entities && !SuccessorPasses(w, id);
    assert astray == {} <==> forall id {:trigger SuccessorPasses(w, id)} :: id in w.entities ==> id !in astray;
    verifier.ReportEach(InvalidSupersedeChain, astray);
    ghost var second := verifier.issues;
    var adjacency := map id | id in w.entities && w.entities[id].supersededBy.Some? :: {w.entities[id].supersededBy.value};
    assert Edges(adjacency) == SupersedeEdges(w);
    verifier.VerifyDirectedCycles(adjacency, SupersedeCycle);
    ChainsReported(SupersedeEdges(w), old(verifier.issues), first, second, verifier.issues, unlinked, astray);
  }

  lemma ChainsReported(edges: set<Edge>, i0: seq<Issue>, i1: seq<Issue>, i2: seq<Issue>, i3: seq<Issue>,
                       unlinked: set<Id>, astray: set<Id>)
    requires Appends(i0, i1) && Appends(i1, i2) && SoundSince(edges, SupersedeCycle, i2, i3)
    requires i1 == i0 <==> unlinked == {}
    requires i2 == i1 <==> astray == {}
    requires forall c :: Named(i0, i1, c) == if c == InvalidSupersedeChain then unlinked else {}
    requires forall c :: Named(i1, i2, c) == if c == InvalidSupersedeChain then astray else {}
    ensures Appends(i0, i3) && (i3 == i0 <==> unlinked == {} && astray == {} && i3 == i2)
    ensures Named(i0, i3, InvalidSupersedeChain) == unlinked + astray
    ensures Named(i0, i3, SupersedeCycle) == {} <==> i3 == i2
    ensures forall v :: v in Named(i0, i3, SupersedeCycle) ==> OnCycle(edges, v)
  {
    AppendsOver(i0, i1, i2);
    AppendsOver(i0, i2, i3);
    SoundNames(edges, SupersedeCycle, i2, i3);
    NamedOver(i0, i1, i2, InvalidSupersedeChain);
    NamedOver(i0, i1, i2, SupersedeCycle);
    NamedOver(i0, i2, i3, InvalidSupersedeChain);
    NamedOver(i0, i2, i3, SupersedeCycle);
  }

  /** The report stays empty exactly when the World State passes every check. */
  method VerifyWorld(w: World) returns (verifier: ConsistencyVerifier)
    ensures verifier.issues == [] <==> WorldPasses(w)
  {
    verifier := new ConsistencyVerifier();
    VerifyDependencies(verifier, w);
    VerifySupersedeChains(verifier, w);
    VerifyParentCycles(verifier, w, Task);
    VerifyParentCycles(verifier, w, Project);
    VerifyParentCycles(verifier, w, Goal);
  }

  // ----- the service keeps to them

  /** Whatever commands the World State service runs, the verifier finds nothing. */
  lemma ReachableWorldPasses(commands: seq<WorldSpec.Command>)
    ensures WorldPasses(WorldSpec.Run(commands))
  {
    WorldGraphs.ReachableGraphsOk(commands);
    PassesWhenOk(WorldSpec.Run(commands));
  }

  lemma PassesWhenOk(w: World)
    requires WorldGraphs.GraphsOk(w)
    ensures WorldPasses(w)
  {
    forall id | id in w.entities ensures SuccessorPasses(w, id) {
      if w.entities[id].supersededBy.Some? {
        assert w.entities[id].supersededBy.value in w.decisions;
      }
    }
  }

  /** Supersession links are mutually inverse, so the chains are disjoint paths: no decision
      is superseded by two, and none supersedes two. */
  lemma SupersessionIsDisjointPaths(commands: seq<WorldSpec.Command>, a: Id, b: Id)
    requires var w := WorldSpec.Run(commands); a in w.entities && b in w.decisions
    ensures var w := WorldSpec.Run(commands);
            w.entities[a].supersededBy == Some(b) <==> a in w.decisions && w.decisions[b].supersedes == Some(a)
    ensures var w := WorldSpec.Run(commands);
            forall c :: c in w.entities && w.entities[a].supersededBy == Some(b) && w.entities[c].supersededBy == Some(b) ==> a == c
  {
    WorldGraphs.ReachableGraphsOk(commands);
  }
}
