/** The dependency check of a candidate plan version: Kahn's algorithm over the payload's
    items, and the payload validation it relies on. */
module PlanGraph {
  import opened Graphs

  datatype Verdict = Accepted | CycleFound | UnknownItem

  function EdgeSet(edges: seq<Edge>): set<Edge> {
    set e | e in edges
  }

  predicate NoDuplicates<T(==)>(s: seq<T>) {
    forall i, j :: 0 <= i < j < |s| ==> s[i] != s[j]
  }

  predicate Known(nodes: set<Id>, edges: seq<Edge>) {
    forall e :: e in edges ==> e.0 in nodes && e.1 in nodes
  }

  /** What the check answers: unknown items are a lookup failure; otherwise it accepts
      exactly the acyclic graphs whose edges are listed once. */
  ghost function KahnVerdict(nodes: set<Id>, edges: seq<Edge>): Verdict {
    if !Known(nodes, edges) then UnknownItem
    else if NoDuplicates(edges) && Acyclic(EdgeSet(edges)) then Accepted
    else CycleFound
  }

  /** `indegree` counts every listed edge while `outgoing` is a set, so listing an edge
      twice makes the check report a cycle that is not there. */
  lemma RepeatedEdgeIsReportedAsCycle()
    ensures KahnVerdict({1, 2}, [(1, 2), (1, 2)]) == CycleFound
    ensures Acyclic(EdgeSet([(1, 2), (1, 2)]))
  {
    var edges := [(1, 2), (1, 2)];
    RankedIsAcyclic(EdgeSet(edges), map[1 := 1, 2 := 2]);
    assert edges[0] == edges[1];
  }

  // ----- counting edges

  function Incoming(edges: seq<Edge>, v: Id): nat {
    if edges == [] then 0
    else Incoming(edges[..|edges| - 1], v) + (if edges[|edges| - 1].1 == v then 1 else 0)
  }

  function Predecessors(edges: seq<Edge>, v: Id): set<Id> {
    set e | e in edges && e.1 == v :: e.0
  }

  function Dependents(edges: seq<Edge>, u: Id): set<Id> {
    set e | e in edges && e.0 == u :: e.1
  }

  lemma PredecessorsOfLonger(edges: seq<Edge>, e: Edge, v: Id)
    ensures Predecessors(edges + [e], v) == Predecessors(edges, v) + (if e.1 == v then {e.0} else {})
    ensures Dependents(edges + [e], v) == Dependents(edges, v) + (if e.0 == v then {e.1} else {})
    ensures Incoming(edges + [e], v) == Incoming(edges, v) + (if e.1 == v then 1 else 0)
  {
    assert (edges + [e])[..|edges|] == edges;
  }

  lemma MoreDuplicates(edges: seq<Edge>, e: Edge)
    ensures NoDuplicates(edges + [e]) <==> NoDuplicates(edges) && e !in edges
  {
    var more := edges + [e];
    assert more[|edges|] == e && forall i :: 0 <= i < |edges| ==> more[i] == edges[i];
    if e in edges {
      var i :| 0 <= i < |edges| && edges[i] == e;
      assert more[i] == more[|edges|];
    }
  }

  /** An edge is counted once per listing, a predecessor once. */
  lemma {:induction false} CountsAtLeastOnce(edges: seq<Edge>, v: Id)
    ensures Incoming(edges, v) >= |Predecessors(edges, v)|
    ensures NoDuplicates(edges) ==> Incoming(edges, v) == |Predecessors(edges, v)|
    decreases |edges|
  {
    if edges != [] {
      var most, e := edges[..|edges| - 1], edges[|edges| - 1];
      assert edges == most + [e];
      CountsAtLeastOnce(most, v);
      PredecessorsOfLonger(most, e, v);
      MoreDuplicates(most, e);
    }
  }

  /** A repeated edge is counted more often than its source is a predecessor. */
  lemma {:induction false} RepeatIsCountedTwice(edges: seq<Edge>, i: nat, j: nat)
    requires i < j < |edges| && edges[i] == edges[j]
    ensures Incoming(edges, edges[i].1) > |Predecessors(edges, edges[i].1)|
    decreases |edges|
  {
    var most, e, v := edges[..|edges| - 1], edges[|edges| - 1], edges[i].1;
    assert edges == most + [e];
    PredecessorsOfLonger(most, e, v);
    if j < |most| {
      RepeatIsCountedTwice(most, i, j);
    } else {
      CountsAtLeastOnce(most, v);
      assert most[i] in most && e.0 in Predecessors(most, v);
      assert Predecessors(most, v) + {e.0} == Predecessors(most, v);
    }
  }

  // ----- the algorithm's invariant

  /** After visiting `done`, each node's count is its listings minus its visited
      predecessors, and the nodes at zero are the visited ones and the frontier. */
  ghost predicate Counted(nodes: set<Id>, edges: seq<Edge>, indegree: map<Id, int>, done: set<Id>) {
    && indegree.Keys == nodes && done <= nodes
    && forall v :: v in nodes ==> indegree[v] == Incoming(edges, v) - |Predecessors(edges, v) * done|
  }

  ghost predicate AtZero(indegree: map<Id, int>, done: set<Id>, frontier: set<Id>) {
    && done !! frontier && done + frontier <= indegree.Keys
    && forall v :: v in indegree ==> (indegree[v] == 0 <==> v in done + frontier)
  }

  /** Visited nodes are ranked by the order of their visits, after their predecessors. */
  ghost predicate Ranked(edges: seq<Edge>, done: set<Id>, rank: map<Id, int>, n: int) {
    && rank.Keys == done && (forall v :: v in done ==> rank[v] < n)
    && forall e :: e in edges && e.1 in done ==> e.0 in done && rank[e.0] < rank[e.1]
  }

  /** A node at zero has had all its predecessors visited, and its edges listed once. */
  lemma ZeroMeansReady(nodes: set<Id>, edges: seq<Edge>, indegree: map<Id, int>, done: set<Id>, v: Id)
    requires Counted(nodes, edges, indegree, done) && v in nodes && indegree[v] == 0
    ensures Predecessors(edges, v) <= done && Incoming(edges, v) == |Predecessors(edges, v)|
  {
    CountsAtLeastOnce(edges, v);
    var all, seen := Predecessors(edges, v), Predecessors(edges, v) * done;
    assert all == seen + (all - seen);
    assert |all| == |seen| + |all - seen|;
  }

  lemma VisitKeepsRank(nodes: set<Id>, edges: seq<Edge>, indegree: map<Id, int>, done: set<Id>, rank: map<Id, int>,
                       n: int, v: Id)
    requires Counted(nodes, edges, indegree, done) && Ranked(edges, done, rank, n)
    requires v in nodes && indegree[v] == 0 && v !in done
    ensures Ranked(edges, done + {v}, rank[v := n], n + 1)
  {
    ZeroMeansReady(nodes, edges, indegree, done, v);
    forall e | e in edges && e.1 == v ensures e.0 in done {
      assert e.0 in Predecessors(edges, v);
    }
    RankOne(edges, done, rank, n, v);
  }

  lemma RankOne(edges: seq<Edge>, done: set<Id>, rank: map<Id, int>, n: int, v: Id)
    requires Ranked(edges, done, rank, n) && v !in done
    requires forall e :: e in edges && e.1 == v ==> e.0 in done
    ensures Ranked(edges, done + {v}, rank[v := n], n + 1)
  {
    assert rank[v := n].Keys == done + {v};
  }

  /** Having visited everything shows the graph acyclic and its edges unrepeated. */
  lemma AllVisited(nodes: set<Id>, edges: seq<Edge>, indegree: map<Id, int>, done: set<Id>, rank: map<Id, int>, n: int)
    requires Known(nodes, edges) && Counted(nodes, edges, indegree, done) && AtZero(indegree, done, {})
    requires Ranked(edges, done, rank, n) && |done| == |nodes|
    ensures NoDuplicates(edges) && Acyclic(EdgeSet(edges))
  {
    SameSizeSubset(done, nodes);
    RankedIsAcyclic(EdgeSet(edges), rank);
    forall i, j | 0 <= i < j < |edges| ensures edges[i] != edges[j] {
      if edges[i] == edges[j] {
        RepeatIsCountedTwice(edges, i, j);
        ZeroMeansReady(nodes, edges, indegree, done, edges[i].1);
      }
    }
  }

  lemma SameSizeSubset(a: set<Id>, b: set<Id>)
    requires a <= b && |a| == |b|
    ensures a == b
  {
    DifferenceSize(b, a);
    assert b - a == {};
  }

  /** Running out of frontier early shows a cycle, or a repeated edge. */
  lemma StuckEarly(nodes: set<Id>, edges: seq<Edge>, indegree: map<Id, int>, done: set<Id>)
    requires Known(nodes, edges) && Counted(nodes, edges, indegree, done) && AtZero(indegree, done, {}) && done != nodes
    ensures !NoDuplicates(edges) || !Acyclic(EdgeSet(edges))
  {
    var left := nodes - done;
    if NoDuplicates(edges) {
      forall v | v in left ensures HasPredecessorIn(EdgeSet(edges), left, v) {
        CountsAtLeastOnce(edges, v);
        var all := Predecessors(edges, v);
        assert all <= done ==> all * done == all;
        var u :| u in all && u !in done;
        assert (u, v) in EdgeSet(edges);
      }
      NoSourceHasCycle(EdgeSet(edges), left);
    }
  }

  // ----- the algorithm

  ghost predicate Built(nodes: set<Id>, edges: seq<Edge>, outgoing: map<Id, set<Id>>, indegree: map<Id, int>) {
    && outgoing.Keys == nodes && indegree.Keys == nodes
    && forall v :: v in nodes ==> outgoing[v] == Dependents(edges, v) && indegree[v] == Incoming(edges, v)
  }

  lemma BuildOne(nodes: set<Id>, edges: seq<Edge>, e: Edge, outgoing: map<Id, set<Id>>, indegree: map<Id, int>)
    requires Built(nodes, edges, outgoing, indegree) && e.0 in nodes && e.1 in nodes
    ensures Built(nodes, edges + [e], outgoing[e.0 := outgoing[e.0] + {e.1}], indegree[e.1 := indegree[e.1] + 1])
  {
    forall v | v in nodes
      ensures outgoing[e.0 := outgoing[e.0] + {e.1}][v] == Dependents(edges + [e], v)
      ensures indegree[e.1 := indegree[e.1] + 1][v] == Incoming(edges + [e], v)
    {
      PredecessorsOfLonger(edges, e, v);
    }
  }

  lemma KnownMore(nodes: set<Id>, edges: seq<Edge>, i: nat)
    requires i < |edges| && Known(nodes, edges[..i])
    ensures Known(nodes, edges[..i + 1]) <==> edges[i].0 in nodes && edges[i].1 in nodes
    ensures !Known(nodes, edges[..i + 1]) ==> !Known(nodes, edges)
  {
    assert edges[..i + 1] == edges[..i] + [edges[i]];
  }

  /** One more dependency: its dependent is reached and counted. */
  method CountOne(nodes: set<Id>, ghost before: seq<Edge>, e: Edge, outgoing0: map<Id, set<Id>>, indegree0: map<Id, int>)
    returns (outgoing: map<Id, set<Id>>, indegree: map<Id, int>)
    requires Built(nodes, before, outgoing0, indegree0) && e.0 in nodes && e.1 in nodes
    ensures Built(nodes, before + [e], outgoing, indegree)
  {
    BuildOne(nodes, before, e, outgoing0, indegree0);
    outgoing := outgoing0[e.0 := outgoing0[e.0] + {e.1}];
    indegree := indegree0[e.1 := indegree0[e.1] + 1];
  }

  method BuildGraph(nodes: set<Id>, edges: seq<Edge>)
    returns (known: bool, outgoing: map<Id, set<Id>>, indegree: map<Id, int>)
    ensures known <==> Known(nodes, edges)
    ensures known ==> Built(nodes, edges, outgoing, indegree)
  {
    outgoing := map v | v in nodes :: {};
    indegree := map v | v in nodes :: 0;
    for i := 0 to |edges|
      invariant Known(nodes, edges[..i]) && Built(nodes, edges[..i], outgoing, indegree)
    {
      assert edges[..i + 1] == edges[..i] + [edges[i]];
      KnownMore(nodes, edges, i);
      if edges[i].0 !in nodes || edges[i].1 !in nodes {
        return false, outgoing, indegree;
      }
      outgoing, indegree := CountOne(nodes, edges[..i], edges[i], outgoing, indegree);
    }
    assert edges[..|edges|] == edges;
    known := true;
  }

  /** Visiting a node lowers the count of each dependent and releases those at zero. */
  method Release(dependents: set<Id>, indegree0: map<Id, int>, frontier0: set<Id>)
    returns (indegree: map<Id, int>, frontier: set<Id>)
    requires dependents <= indegree0.Keys
    ensures Lowered(indegree0, indegree, dependents, {}) && Released(indegree0, frontier0, frontier, dependents, {})
  {
    indegree, frontier := indegree0, frontier0;
    var left := dependents;
    while left != {}
      invariant left <= dependents
      invariant Lowered(indegree0, indegree, dependents, left)
      invariant Released(indegree0, frontier0, frontier, dependents, left)
      decreases left
    {
      ghost var least := LeastExists(left);
      var dependent :| dependent in left && forall u :: u in left ==> dependent <= u;
      LowerOne(indegree0, indegree, frontier0, frontier, dependents, left, dependent);
      left := left - {dependent};
      indegree := indegree[dependent := indegree[dependent] - 1];
      if indegree[dependent] == 0 {
        frontier := frontier + {dependent};
      }
    }
  }

  /** The counts of the dependents handled so far are one lower. */
  ghost predicate Lowered(indegree0: map<Id, int>, indegree: map<Id, int>, dependents: set<Id>, left: set<Id>) {
    && indegree.Keys == indegree0.Keys
    && forall v :: v in indegree ==> indegree[v] == if v in dependents && v !in left then indegree0[v] - 1 else indegree0[v]
  }

  /** The dependents handled so far whose count was one have joined the frontier. */
  ghost predicate Released(indegree0: map<Id, int>, frontier0: set<Id>, frontier: set<Id>, dependents: set<Id>, left: set<Id>) {
    && frontier <= frontier0 + indegree0.Keys
    && forall v :: v in indegree0 ==>
         (v in frontier <==> v in frontier0 || (v in dependents && v !in left && indegree0[v] == 1))
  }

  lemma LowerOne(indegree0: map<Id, int>, indegree: map<Id, int>, frontier0: set<Id>, frontier: set<Id>,
                 dependents: set<Id>, left: set<Id>, v: Id)
    requires v in left && left <= dependents && dependents <= indegree0.Keys
    requires Lowered(indegree0, indegree, dependents, left) && Released(indegree0, frontier0, frontier, dependents, left)
    ensures Lowered(indegree0, indegree[v := indegree[v] - 1], dependents, left - {v})
    ensures Released(indegree0, frontier0, if indegree[v] == 1 then frontier + {v} else frontier, dependents, left - {v})
  {
  }

  lemma VisitCounts(nodes: set<Id>, edges: seq<Edge>, current: Id, dependents: set<Id>, indegree0: map<Id, int>,
                    indegree: map<Id, int>, done: set<Id>)
    requires Counted(nodes, edges, indegree0, done) && current in nodes && current !in done
    requires dependents == Dependents(edges, current) && Lowered(indegree0, indegree, dependents, {})
    ensures Counted(nodes, edges, indegree, done + {current})
  {
    forall v | v in nodes ensures indegree[v] == Incoming(edges, v) - |Predecessors(edges, v) * (done + {current})| {
      VisitedPredecessors(edges, current, v, done);
    }
  }

  lemma VisitedPredecessors(edges: seq<Edge>, u: Id, v: Id, done: set<Id>)
    requires u !in done
    ensures |Predecessors(edges, v) * (done + {u})|
            == |Predecessors(edges, v) * done| + (if v in Dependents(edges, u) then 1 else 0)
  {
    var all := Predecessors(edges, v);
    assert v in Dependents(edges, u) <==> (u, v) in edges;
    assert u in all <==> (u, v) in edges;
    assert all * (done + {u}) == all * done + (if u in all then {u} else {});
  }

  lemma NotReadyYet(nodes: set<Id>, edges: seq<Edge>, indegree: map<Id, int>, done: set<Id>, current: Id, v: Id)
    requires Known(nodes, edges) && Counted(nodes, edges, indegree, done) && current !in done
    requires v in Dependents(edges, current)
    ensures v in nodes && indegree[v] != 0
  {
    assert current in Predecessors(edges, v);
    if indegree[v] == 0 {
      ZeroMeansReady(nodes, edges, indegree, done, v);
    }
  }

  /** After a visit and its releases, exactly the visited nodes and the frontier are at zero. */
  lemma VisitZeroes(nodes: set<Id>, edges: seq<Edge>, current: Id, dependents: set<Id>, indegree0: map<Id, int>,
                    indegree: map<Id, int>, frontier0: set<Id>, frontier: set<Id>, done: set<Id>)
    requires Known(nodes, edges) && Counted(nodes, edges, indegree0, done) && AtZero(indegree0, done, frontier0)
    requires current in frontier0 && dependents == Dependents(edges, current) && dependents <= nodes
    requires Lowered(indegree0, indegree, dependents, {})
    requires Released(indegree0, frontier0 - {current}, frontier, dependents, {})
    ensures AtZero(indegree, done + {current}, frontier)
  {
    forall v | v in dependents ensures indegree0[v] != 0 {
      NotReadyYet(nodes, edges, indegree0, done, current, v);
    }
    ZeroesAfter(current, dependents, indegree0, indegree, frontier0, frontier, done);
  }

  lemma ZeroesAfter(current: Id, dependents: set<Id>, indegree0: map<Id, int>, indegree: map<Id, int>,
                    frontier0: set<Id>, frontier: set<Id>, done: set<Id>)
    requires AtZero(indegree0, done, frontier0) && current in frontier0
    requires dependents <= indegree0.Keys && forall v :: v in dependents ==> indegree0[v] != 0
    requires Lowered(indegree0, indegree, dependents, {})
    requires Released(indegree0, frontier0 - {current}, frontier, dependents, {})
    ensures AtZero(indegree, done + {current}, frontier)
  {
    forall v | v in indegree
      ensures indegree[v] == 0 <==> v in done + {current} + frontier
      ensures !(v in done + {current} && v in frontier)
    {
      assert indegree[v] == if v in dependents then indegree0[v] - 1 else indegree0[v];
    }
  }

  /** One visit keeps the counts, the zeroes and the ranks. */
  lemma VisitOne(nodes: set<Id>, edges: seq<Edge>, current: Id, dependents: set<Id>, indegree0: map<Id, int>,
                 indegree: map<Id, int>, frontier0: set<Id>, frontier: set<Id>, done: set<Id>, rank: map<Id, int>, n: int)
    requires Known(nodes, edges) && Counted(nodes, edges, indegree0, done) && AtZero(indegree0, done, frontier0)
    requires Ranked(edges, done, rank, n) && n == |done|
    requires current in frontier0 && dependents == Dependents(edges, current)
    requires Lowered(indegree0, indegree, dependents, {})
    requires Released(indegree0, frontier0 - {current}, frontier, dependents, {})
    ensures Counted(nodes, edges, indegree, done + {current}) && AtZero(indegree, done + {current}, frontier)
    ensures Ranked(edges, done + {current}, rank[current := n], n + 1) && n + 1 == |done + {current}|
    ensures nodes - (done + {current}) < nodes - done
  {
    VisitKeepsRank(nodes, edges, indegree0, done, rank, n, current);
    DependentsAreNodes(nodes, edges, current);
    VisitCounts(nodes, edges, current, dependents, indegree0, indegree, done);
    VisitZeroes(nodes, edges, current, dependents, indegree0, indegree, frontier0, frontier, done);
    assert current in nodes - done;
  }

  method AssertAcyclic(nodes: set<Id>, edges: seq<Edge>) returns (r: Verdict)
    ensures r == KahnVerdict(nodes, edges)
  {
    var known, outgoing, indegree := BuildGraph(nodes, edges);
    if !known {
      return UnknownItem;
    }
    var frontier := set v | v in nodes && indegree[v] == 0;
    var visited := 0;
    ghost var done, rank := {}, map[];
    CountedAtFirst(nodes, edges, outgoing, indegree);
    while frontier != {}
      invariant Counted(nodes, edges, indegree, done) && AtZero(indegree, done, frontier)
      invariant Ranked(edges, done, rank, visited) && visited == |done|
      decreases nodes - done
    {
      ghost var least := LeastExists(frontier);
      var current :| current in frontier && forall u :: u in frontier ==> current <= u;
      DependentsAreNodes(nodes, edges, current);
      ghost var before, frontier0 := indegree, frontier;
      indegree, frontier := Release(outgoing[current], indegree, frontier - {current});
      VisitOne(nodes, edges, current, outgoing[current], before, indegree, frontier0, frontier, done, rank, visited);
      rank, done, visited := rank[current := visited], done + {current}, visited + 1;
    }
    if visited != |nodes| {
      StuckEarly(nodes, edges, indegree, done);
      return CycleFound;
    }
    AllVisited(nodes, edges, indegree, done, rank, visited);
    return Accepted;
  }

  lemma DependentsAreNodes(nodes: set<Id>, edges: seq<Edge>, u: Id)
    requires Known(nodes, edges)
    ensures Dependents(edges, u) <= nodes
  {
  }

  lemma CountedAtFirst(nodes: set<Id>, edges: seq<Edge>, outgoing: map<Id, set<Id>>, indegree: map<Id, int>)
    requires Built(nodes, edges, outgoing, indegree)
    ensures Counted(nodes, edges, indegree, {})
  {
    forall v ensures |Predecessors(edges, v) * {}| == 0 {
      assert Predecessors(edges, v) * {} == {};
    }
  }

  // ----- the payload

  datatype PayloadVerdict =
    | WellFormedPayload | SelfDependency | RepeatedItem | RepeatedOrdinal | RepeatedDependency | UnknownReference

  function ToSet<T(==)>(s: seq<T>): set<T> {
    set x | x in s
  }

  lemma {:induction false} SetSize<T>(s: seq<T>)
    ensures |ToSet(s)| <= |s|
    ensures |ToSet(s)| == |s| <==> NoDuplicates(s)
    decreases |s|
  {
    if s != [] {
      var most, last := s[..|s| - 1], s[|s| - 1];
      SetSize(most);
      assert s == most + [last];
      assert ToSet(s) == ToSet(most) + {last};
      if last in most {
        var i :| 0 <= i < |most| && most[i] == last;
        assert s[i] == s[|s| - 1];
      } else {
        assert NoDuplicates(most) <==> NoDuplicates(s);
      }
    }
  }

  /** The payload names each item, ordinal and dependency once, and only known items. */
  ghost predicate WellFormed(handles: seq<Id>, ordinals: seq<nat>, dependencies: seq<Edge>) {
    && NoDuplicates(handles) && NoDuplicates(ordinals) && NoDuplicates(dependencies)
    && Known(Elements(handles), dependencies) && forall e :: e in dependencies ==> e.0 != e.1
  }

  method ValidateGraphReferences(handles: seq<Id>, ordinals: seq<nat>, dependencies: seq<Edge>)
    returns (r: PayloadVerdict)
    ensures r == WellFormedPayload <==> WellFormed(handles, ordinals, dependencies)
    ensures r == WellFormedPayload <==>
              && (forall i, j :: 0 <= i < j < |handles| ==> handles[i] != handles[j])
              && (forall i, j :: 0 <= i < j < |ordinals| ==> ordinals[i] != ordinals[j])
              && (forall i, j :: 0 <= i < j < |dependencies| ==> dependencies[i] != dependencies[j])
              && (forall e :: e in dependencies ==> e.0 in handles && e.1 in handles && e.0 != e.1)
    ensures r == SelfDependency <==> exists e :: e in dependencies && e.0 == e.1
    ensures r == RepeatedItem ==> !NoDuplicates(handles)
    ensures r == RepeatedOrdinal ==> !NoDuplicates(ordinals)
    ensures r == RepeatedDependency ==> !NoDuplicates(dependencies)
    ensures r == UnknownReference ==> !Known(Elements(handles), dependencies)
  {
    if exists e :: e in dependencies && e.0 == e.1 {
      return SelfDependency;
    }
    SetSize(handles);
    SetSize(ordinals);
    if |handles| != |ToSet(handles)| {
      return RepeatedItem;
    }
    if |ordinals| != |ToSet(ordinals)| {
      return RepeatedOrdinal;
    }
    var known, edges := ToSet(handles), {};
    assert known == Elements(handles);
    for i := 0 to |dependencies|
      invariant edges == EdgeSet(dependencies[..i])
      invariant NoDuplicates(dependencies[..i]) && Known(known, dependencies[..i])
    {
      var edge := dependencies[i];
      if edge in edges {
        var k :| 0 <= k < i && dependencies[k] == edge;
        return RepeatedDependency;
      }
      if edge.0 !in known || edge.1 !in known {
        return UnknownReference;
      }
      edges := edges + {edge};
      assert dependencies[..i + 1] == dependencies[..i] + [edge];
      assert forall k :: 0 <= k < i ==> dependencies[..i][k] in edges - {edge};
    }
    assert dependencies[..|dependencies|] == dependencies;
    return WellFormedPayload;
  }

  /** On a validated payload the check accepts exactly the acyclic graphs. */
  lemma ExactOnValidatedPayloads(handles: seq<Id>, ordinals: seq<nat>, dependencies: seq<Edge>)
    requires WellFormed(handles, ordinals, dependencies)
    ensures KahnVerdict(Elements(handles), dependencies)
            == if Acyclic(EdgeSet(dependencies)) then Accepted else CycleFound
  {
  }
}
