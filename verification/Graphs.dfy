/** Finite directed graphs given as a set of edges: paths, cycles and the facts
    about them shared by the World State, Planning and consistency models. */
module Graphs {

  type Id = nat

  type Edge = (Id, Id)

  ghost predicate IsPath(edges: set<Edge>, path: seq<Id>) {
    |path| > 0 && forall i :: 0 <= i < |path| - 1 ==> (path[i], path[i + 1]) in edges
  }

  /** `path` leads from `a` to `b`; the one-node path is allowed. */
  ghost predicate PathFromTo(edges: set<Edge>, path: seq<Id>, a: Id, b: Id) {
    IsPath(edges, path) && path[0] == a && path[|path| - 1] == b
  }

  ghost predicate Reaches(edges: set<Edge>, a: Id, b: Id) {
    exists path :: PathFromTo(edges, path, a, b)
  }

  ghost predicate IsCycle(edges: set<Edge>, path: seq<Id>) {
    IsPath(edges, path) && |path| >= 2 && path[0] == path[|path| - 1]
  }

  ghost predicate Acyclic(edges: set<Edge>) {
    forall path :: !IsCycle(edges, path)
  }

  /** `node` lies on a directed cycle. */
  ghost predicate OnCycle(edges: set<Edge>, node: Id) {
    exists path :: IsCycle(edges, path) && path[0] == node
  }

  function Nodes(edges: set<Edge>): set<Id> {
    (set e | e in edges :: e.0) + (set e | e in edges :: e.1)
  }

  lemma ReachesSelf(edges: set<Edge>, a: Id)
    ensures Reaches(edges, a, a)
  {
    assert PathFromTo(edges, [a], a, a);
  }

  lemma ExtendPath(edges: set<Edge>, path: seq<Id>, next: Id)
    requires IsPath(edges, path) && (path[|path| - 1], next) in edges
    ensures IsPath(edges, path + [next])
  {
    var longer := path + [next];
    forall i | 0 <= i < |longer| - 1 ensures (longer[i], longer[i + 1]) in edges {
      if i == |path| - 1 { assert longer[i + 1] == next; }
    }
  }

  lemma ReachesStep(edges: set<Edge>, a: Id, b: Id, c: Id)
    requires Reaches(edges, a, b) && (b, c) in edges
    ensures Reaches(edges, a, c)
  {
    var path :| PathFromTo(edges, path, a, b);
    ExtendPath(edges, path, c);
    assert PathFromTo(edges, path + [c], a, c);
  }

  lemma SubPath(edges: set<Edge>, path: seq<Id>, lo: nat, hi: nat)
    requires IsPath(edges, path) && lo < hi <= |path|
    ensures IsPath(edges, path[lo..hi])
  {
    var part := path[lo..hi];
    forall i | 0 <= i < |part| - 1 ensures (part[i], part[i + 1]) in edges {
      assert part[i] == path[lo + i] && part[i + 1] == path[lo + i + 1];
    }
  }

  lemma PrependToPath(edges: set<Edge>, first: Id, path: seq<Id>)
    requires IsPath(edges, path) && (first, path[0]) in edges
    ensures IsPath(edges, [first] + path)
  {
    var longer := [first] + path;
    forall i | 0 <= i < |longer| - 1 ensures (longer[i], longer[i + 1]) in edges {
      if i > 0 { assert longer[i] == path[i - 1] && longer[i + 1] == path[i]; }
    }
  }

  /** A set that contains `a` and is closed under the edges contains everything `a` reaches. */
  lemma ClosedContainsReachable(edges: set<Edge>, closed: set<Id>, path: seq<Id>)
    requires IsPath(edges, path) && path[0] in closed
    requires forall e :: e in edges && e.0 in closed ==> e.1 in closed
    ensures path[|path| - 1] in closed
  {
    if |path| > 1 {
      var shorter := path[0..|path| - 1];
      SubPath(edges, path, 0, |path| - 1);
      ClosedContainsReachable(edges, closed, shorter);
      assert (path[|path| - 2], path[|path| - 1]) in edges;
    }
  }

  lemma SubgraphAcyclic(sub: set<Edge>, edges: set<Edge>)
    requires sub <= edges && Acyclic(edges)
    ensures Acyclic(sub)
  {
    forall path | IsCycle(sub, path) ensures false {
      assert IsCycle(edges, path);
    }
  }

  /** Every edge strictly increases `rank`, so no path returns to its start. */
  lemma RankedIsAcyclic(edges: set<Edge>, rank: map<Id, int>)
    requires forall e :: e in edges ==> e.0 in rank && e.1 in rank && rank[e.0] < rank[e.1]
    ensures Acyclic(edges)
  {
    forall path | IsCycle(edges, path) ensures false {
      RankGrows(edges, rank, path);
    }
  }

  lemma RankGrows(edges: set<Edge>, rank: map<Id, int>, path: seq<Id>)
    requires forall e :: e in edges ==> e.0 in rank && e.1 in rank && rank[e.0] < rank[e.1]
    requires IsPath(edges, path) && |path| >= 2
    ensures path[0] in rank && path[|path| - 1] in rank
    ensures rank[path[0]] < rank[path[|path| - 1]]
  {
    var last := |path| - 1;
    assert (path[last - 1], path[last]) in edges;
    if |path| > 2 {
      var shorter := path[0..last];
      SubPath(edges, path, 0, last);
      RankGrows(edges, rank, shorter);
    }
  }

  ghost predicate HasPredecessorIn(edges: set<Edge>, nodes: set<Id>, v: Id) {
    exists u :: u in nodes && (u, v) in edges
  }

  function Elements(path: seq<Id>): set<Id> {
    set v | v in path
  }

  /** A nonempty finite set in which every node has a predecessor inside the set holds a cycle. */
  lemma NoSourceHasCycle(edges: set<Edge>, nodes: set<Id>)
    requires nodes != {}
    requires forall v {:trigger HasPredecessorIn(edges, nodes, v)} :: v in nodes ==> HasPredecessorIn(edges, nodes, v)
    ensures !Acyclic(edges)
  {
    var start :| start in nodes;
    WalkBack(edges, nodes, [start]);
  }

  lemma WalkBack(edges: set<Edge>, nodes: set<Id>, path: seq<Id>)
    requires forall v {:trigger HasPredecessorIn(edges, nodes, v)} :: v in nodes ==> HasPredecessorIn(edges, nodes, v)
    requires IsPath(edges, path) && Elements(path) <= nodes
    ensures !Acyclic(edges)
    decreases |nodes - Elements(path)|
  {
    assert path[0] in Elements(path);
    assert HasPredecessorIn(edges, nodes, path[0]);
    var u :| u in nodes && (u, path[0]) in edges;
    PrependToPath(edges, u, path);
    if u in path {
      BackToStart(edges, path, u);
    } else {
      assert Elements([u] + path) == Elements(path) + {u};
      SmallerDifference(nodes, Elements(path), u);
      WalkBack(edges, nodes, [u] + path);
    }
  }

  lemma BackToStart(edges: set<Edge>, path: seq<Id>, u: Id)
    requires IsPath(edges, [u] + path) && u in path
    ensures !Acyclic(edges)
  {
    var k :| 0 <= k < |path| && path[k] == u;
    var longer := [u] + path;
    SubPath(edges, longer, 0, k + 2);
    assert IsCycle(edges, longer[0..k + 2]);
  }

  lemma SmallerDifference(all: set<Id>, some: set<Id>, u: Id)
    requires u in all && u !in some
    ensures |all - (some + {u})| < |all - some|
  {
    assert all - (some + {u}) == (all - some) - {u};
    assert u in all - some;
  }

  lemma DifferenceSize<T>(all: set<T>, some: set<T>)
    requires some <= all
    ensures |some| + |all - some| == |all|
  {
    assert all == some + (all - some);
  }

  /** Adding one edge to an acyclic graph keeps it acyclic exactly when the
      edge's target did not already reach its source. */
  lemma AddEdge(edges: set<Edge>, a: Id, b: Id)
    requires Acyclic(edges)
    ensures Acyclic(edges + {(a, b)}) <==> !Reaches(edges, b, a)
  {
    var more := edges + {(a, b)};
    if Reaches(edges, b, a) {
      var path :| PathFromTo(edges, path, b, a);
      PrependToPath(more, a, path);
      assert IsCycle(more, [a] + path);
    }
    forall cycle | IsCycle(more, cycle) ensures Reaches(edges, b, a) {
      CycleUsesNewEdge(edges, a, b, cycle);
    }
  }

  lemma CycleUsesNewEdge(edges: set<Edge>, a: Id, b: Id, cycle: seq<Id>)
    requires Acyclic(edges) && IsCycle(edges + {(a, b)}, cycle)
    ensures Reaches(edges, b, a)
  {
    var last := |cycle| - 1;
    if forall i :: 0 <= i < last ==> (cycle[i], cycle[i + 1]) in edges {
      assert IsCycle(edges, cycle);
      assert false;
    } else {
      var i :| 0 <= i < last && (cycle[i], cycle[i + 1]) !in edges;
      assert cycle[i] == a && cycle[i + 1] == b;
      var tour := cycle[i + 1..] + cycle[1..i + 1];
      forall j | 0 <= j < |tour| - 1 ensures (tour[j], tour[j + 1]) in edges + {(a, b)} {
        if j < last - i - 1 {
          assert tour[j] == cycle[i + 1 + j] && tour[j + 1] == cycle[i + 2 + j];
        } else if j == last - i - 1 {
          assert tour[j] == cycle[last] == cycle[0] && tour[j + 1] == cycle[1];
        } else {
          var k := j - (last - i) + 1;
          assert tour[j] == cycle[k] && tour[j + 1] == cycle[k + 1];
        }
      }
      ShortcutBeforeEdge(edges, a, b, tour);
    }
  }

  /** A walk from `b` to `a` that may use the edge `(a, b)` contains one that does not. */
  lemma ShortcutBeforeEdge(edges: set<Edge>, a: Id, b: Id, walk: seq<Id>)
    requires PathFromTo(edges + {(a, b)}, walk, b, a)
    ensures Reaches(edges, b, a)
    decreases |walk|
  {
    if j :| 0 <= j < |walk| - 1 && walk[j] == a {
      SubPath(edges + {(a, b)}, walk, 0, j + 1);
      ShortcutBeforeEdge(edges, a, b, walk[0..j + 1]);
    } else {
      assert PathFromTo(edges, walk, b, a);
    }
  }

  /** A walk to `a` needs no edge that leaves `a`. */
  lemma WalkWithoutLeaving(edges: set<Edge>, less: set<Edge>, b: Id, a: Id, walk: seq<Id>)
    requires PathFromTo(edges, walk, b, a) && forall e :: e in edges && e.0 != a ==> e in less
    ensures Reaches(less, b, a)
    decreases |walk|
  {
    if j :| 0 <= j < |walk| - 1 && walk[j] == a {
      SubPath(edges, walk, 0, j + 1);
      WalkWithoutLeaving(edges, less, b, a, walk[0..j + 1]);
    } else {
      assert PathFromTo(less, walk, b, a);
    }
  }

  lemma ReturnClosesCycle(edges: set<Edge>, after: set<Edge>, a: Id, b: Id)
    requires (a, b) in edges && (forall e :: e in after && e.0 != a ==> e in edges) && Reaches(after, b, a)
    ensures !Acyclic(edges)
  {
    var walk :| PathFromTo(after, walk, b, a);
    WalkWithoutLeaving(after, edges, b, a, walk);
    var path :| PathFromTo(edges, path, b, a);
    PrependToPath(edges, a, path);
    assert IsCycle(edges, [a] + path);
  }

  /** Giving `a` other targets does not make its old target reach it. */
  lemma OldTargetStaysAbove(edges: set<Edge>, after: set<Edge>, a: Id, b: Id)
    requires Acyclic(edges) && (a, b) in edges && forall e :: e in after && e.0 != a ==> e in edges
    ensures !Reaches(after, b, a)
  {
    if Reaches(after, b, a) {
      ReturnClosesCycle(edges, after, a, b);
    }
  }

  /** New edges that all enter a node without outgoing edges create no cycle. */
  lemma AddEdgesIntoSink(edges: set<Edge>, more: set<Edge>, sink: Id)
    requires Acyclic(edges)
    requires forall e :: e in more ==> e.0 != sink && (e in edges || e.1 == sink)
    ensures Acyclic(more)
  {
    forall cycle | IsCycle(more, cycle) ensures false {
      forall i | 0 <= i < |cycle| - 1 ensures (cycle[i], cycle[i + 1]) in edges {
        assert (cycle[i], cycle[i + 1]) in more;
        if i + 1 < |cycle| - 1 {
          assert (cycle[i + 1], cycle[i + 2]) in more;
        } else {
          assert (cycle[0], cycle[1]) in more;
        }
      }
      assert IsCycle(edges, cycle);
    }
  }

  /** A node without outgoing edges reaches only itself. */
  lemma SinkReachesOnlyItself(edges: set<Edge>, sink: Id, b: Id)
    requires forall e :: e in edges ==> e.0 != sink
    requires Reaches(edges, sink, b)
    ensures b == sink
  {
    var path :| PathFromTo(edges, path, sink, b);
    ClosedContainsReachable(edges, {sink}, path);
  }

  /** A node without incoming edges is reached only from itself. */
  lemma SourceIsUnreachable(edges: set<Edge>, a: Id, source: Id)
    requires forall e :: e in edges ==> e.1 != source
    requires a != source
    ensures !Reaches(edges, a, source)
  {
    if Reaches(edges, a, source) {
      var path :| PathFromTo(edges, path, a, source);
      ClosedContainsReachable(edges, Nodes(edges) + {a} - {source}, path);
    }
  }

  // ----- least elements

  lemma LeastExists(s: set<Id>) returns (m: Id)
    requires s != {}
    ensures m in s && forall u :: u in s ==> m <= u
  {
    m :| m in s;
    if s != {m} {
      var m' := LeastExists(s - {m});
      assert s == s - {m} + {m};
      m := if m' < m then m' else m;
    }
  }

  function Least(s: set<Id>): (m: Id)
    requires s != {}
    ensures m in s
  {
    ThereIsALeast(s);
    var m :| m in s && forall u :: u in s ==> m <= u;
    m
  }

  lemma ThereIsALeast(s: set<Id>)
    requires s != {}
    ensures exists m :: m in s && forall u :: u in s ==> m <= u
  {
    var m := LeastExists(s);
  }
}
