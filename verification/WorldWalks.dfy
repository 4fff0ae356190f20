/** The two walks of the World State service: up the parent chain, and breadth-first
    along the task dependencies. The predicates are the walks' loop invariants. */
module WorldWalks {
  import opened Basics
  import opened Graphs
  import opened WorldModel
  import opened WorldGraphs

  /** The nodes visited so far, each the parent of the one before, and the next one. */
  ghost predicate Climb(w: World, kind: Kind, child: Id, parent: Value, path: seq<Id>, seen: set<Id>, current: Value) {
    && parent.Ref? && parent.id != child
    && seen == {child} + Elements(path) && child !in path
    && (forall v :: v in path ==> ActiveRow(w, v, kind))
    && (forall i, j :: 0 <= i && j == i + 1 && j < |path| ==> ParentOf(w, path[i]) == Ref(path[j]))
    && (if path == [] then current == parent
        else path[0] == parent.id && current == ParentOf(w, path[|path| - 1]))
  }

  lemma ClimbStarts(w: World, kind: Kind, child: Id, parent: Value)
    requires parent.Ref? && parent.id != child
    ensures Climb(w, kind, child, parent, [], {child}, parent)
  {
  }

  lemma ClimbOne(w: World, kind: Kind, child: Id, parent: Value, path: seq<Id>, seen: set<Id>, current: Value)
    requires Climb(w, kind, child, parent, path, seen, current)
    requires current.Ref? && current.id !in seen && ActiveRow(w, current.id, kind)
    ensures Climb(w, kind, child, parent, path + [current.id], seen + {current.id}, ParentOf(w, current.id))
    ensures w.rows.Keys - (seen + {current.id}) < w.rows.Keys - seen
  {
    assert Elements(path + [current.id]) == Elements(path) + {current.id};
    assert current.id in w.rows.Keys - seen;
  }

  lemma ClimbFromActive(w: World, kind: Kind, child: Id, parent: Value, path: seq<Id>, seen: set<Id>, current: Value)
    requires RowsOk(w) && Climb(w, kind, child, parent, path, seen, current)
    ensures path != [] && current.Ref? ==> ActiveRow(w, current.id, kind)
  {
    assert path != [] ==> path[|path| - 1] in path;
  }

  /** Only the proposed parent itself can be inactive: parents of active rows are active. */
  lemma ClimbBlocked(w: World, kind: Kind, child: Id, parent: Value, path: seq<Id>, seen: set<Id>, current: Value)
    requires RowsOk(w) && Climb(w, kind, child, parent, path, seen, current)
    requires current.Ref? && !ActiveRow(w, current.id, kind)
    ensures ParentVerdict(w, kind, child, parent) == Some(NotFound)
  {
    ClimbFromActive(w, kind, child, parent, path, seen, current);
  }

  lemma ClimbIsPath(w: World, kind: Kind, child: Id, parent: Value, path: seq<Id>, seen: set<Id>, current: Value)
    requires Climb(w, kind, child, parent, path, seen, current) && path != []
    ensures IsPath(ParentEdges(w, kind), path)
    ensures current.Ref? ==> IsPath(ParentEdges(w, kind), path + [current.id])
  {
    var edges := ParentEdges(w, kind);
    forall i | 0 <= i < |path| - 1 ensures (path[i], path[i + 1]) in edges {
      assert path[i] in path && ParentOf(w, path[i]) == Ref(path[i + 1]);
    }
    if current.Ref? {
      assert path[|path| - 1] in path;
      ExtendPath(edges, path, current.id);
    }
  }

  /** Meeting a seen node on the way up means the chain leads to the child. */
  lemma ClimbMeets(w: World, kind: Kind, child: Id, parent: Value, path: seq<Id>, seen: set<Id>, current: Value)
    requires ForestsOk(w) && Climb(w, kind, child, parent, path, seen, current)
    requires current.Ref? && current.id in seen
    ensures ParentVerdict(w, kind, child, parent) == Some(Cycle)
  {
    var edges := ParentEdges(w, kind);
    ClimbIsPath(w, kind, child, parent, path, seen, current);
    var longer := path + [current.id];
    assert path[0] in path;
    if current.id == child {
      assert PathFromTo(edges, longer, parent.id, child);
    } else {
      var k :| 0 <= k < |path| && path[k] == current.id;
      SubPath(edges, longer, k, |longer|);
      assert IsCycle(edges, longer[k..|longer|]);
      assert false;
    }
  }

  /** A climb that ends at a root without meeting the child shows the parent is allowed. */
  lemma ClimbEnds(w: World, kind: Kind, child: Id, parent: Value, path: seq<Id>, seen: set<Id>, current: Value)
    requires Climb(w, kind, child, parent, path, seen, current) && !current.Ref?
    ensures ParentVerdict(w, kind, child, parent).None?
  {
    var edges := ParentEdges(w, kind);
    assert path[0] in path;
    forall e | e in edges && e.0 in Elements(path) ensures e.1 in Elements(path) {
      var i :| 0 <= i < |path| && path[i] == e.0;
      assert ParentOf(w, path[i]) == Ref(e.1);
      if i + 1 < |path| { assert path[i + 1] == e.1; }
    }
    if Reaches(edges, parent.id, child) {
      var walk :| PathFromTo(edges, walk, parent.id, child);
      ClosedContainsReachable(edges, Elements(path), walk);
    }
  }

  // ----- the dependency frontier

  /** Everything seen or in the frontier is reachable from the start, and what the seen
      nodes lead to is seen or in the frontier. */
  ghost predicate Frontier(deps: set<Edge>, start: Id, target: Id, seen: set<Id>, frontier: set<Id>) {
    && start in seen + frontier && target !in seen && seen !! frontier
    && seen + frontier <= Nodes(deps) + {start}
    && (forall v :: v in seen + frontier ==> Reaches(deps, start, v))
    && (forall e :: e in deps && e.0 in seen ==> e.1 in seen + frontier)
  }

  function Successors(deps: set<Edge>, frontier: set<Id>): set<Id> {
    set e | e in deps && e.0 in frontier :: e.1
  }

  lemma FrontierStarts(deps: set<Edge>, start: Id, target: Id)
    ensures Frontier(deps, start, target, {}, {start})
  {
    ReachesSelf(deps, start);
  }

  lemma FrontierOne(deps: set<Edge>, start: Id, target: Id, seen: set<Id>, frontier: set<Id>)
    requires Frontier(deps, start, target, seen, frontier) && target !in frontier && frontier != {}
    ensures Frontier(deps, start, target, seen + frontier, Successors(deps, frontier) - (seen + frontier))
    ensures Nodes(deps) + {start} - (seen + frontier) < Nodes(deps) + {start} - seen
  {
    forall e | e in deps && e.0 in frontier ensures Reaches(deps, start, e.1) {
      ReachesStep(deps, start, e.0, e.1);
    }
    var v :| v in frontier;
    assert v in Nodes(deps) + {start} - seen;
  }

  lemma FrontierEnds(deps: set<Edge>, start: Id, target: Id, seen: set<Id>)
    requires Frontier(deps, start, target, seen, {})
    ensures !Reaches(deps, start, target)
  {
    if Reaches(deps, start, target) {
      var path :| PathFromTo(deps, path, start, target);
      ClosedContainsReachable(deps, seen, path);
    }
  }
}
