/** The consistency verifier's issue list and its two cycle searches: a three-colour
    depth-first search over an adjacency map, and Kahn's algorithm over a version's items. */
module Consistency {
  import opened Graphs
  import opened PlanGraph

  datatype Code =
    | TaskParentCycle | ProjectParentCycle | GoalParentCycle | DanglingTaskDependency | TaskDependencyCycle
    | InvalidSupersedeChain | SupersedeCycle
    | PlanCurrentVersionCardinality | PlanStrategyMissing | StrategyAcceptedVersionMissing | StrategyPlanMismatch
    | PlanVersionPlanMissing | PlanVersionLineageInvalid | PlanItemVersionMissing | PlanItemDependencyVersionMismatch
    | PlanPresentationVersionMissing | PlanPresentationMessageInvalid | PlanApprovalSourceInvalid
    | PlanApprovedWithoutPresentation | PlanBasisVersionMissing | PlanBasisEventMismatch | PlanBasisRoleMismatch
    | PlanGoalLinkInvalid | PlanProgressWithoutApproval | PlanItemDependencyCycle

  datatype Issue = Issue(code: Code, subject: Id) | LinkIssue(code: Code, prerequisite: Id, dependent: Id)

  type Adjacency = map<Id, set<Id>>

  function Edges(adjacency: Adjacency): set<Edge> {
    set u, v | u in adjacency && v in adjacency[u] :: (u, v)
  }

  /** The links of an adjacency map as edges, and all the nodes they mention. */
  ghost predicate Links(adjacency: Adjacency, edges: set<Edge>, all: set<Id>) {
    && adjacency.Keys <= all && (forall e :: e in edges ==> e.0 in all && e.1 in all)
    && (forall e :: e in edges ==> e.0 in adjacency && e.1 in adjacency[e.0])
    && (forall u, v :: u in adjacency && v in adjacency[u] ==> (u, v) in edges)
  }

  lemma LinksOf(adjacency: Adjacency)
    ensures Links(adjacency, Edges(adjacency), adjacency.Keys + Nodes(Edges(adjacency)))
  {
  }

  // ----- the search's invariants

  /** The grey nodes are the path from the root of the search to the current node. */
  ghost predicate Grey(edges: set<Edge>, visiting: set<Id>, path: seq<Id>) {
    visiting == Elements(path) && (path != [] ==> IsPath(edges, path))
  }

  /** The black nodes are ranked by when they finished; their targets finished before. */
  ghost predicate Black(edges: set<Edge>, visited: set<Id>, rank: map<Id, int>) {
    && rank.Keys == visited && (forall v :: v in visited ==> rank[v] < |visited|)
    && forall e :: e in edges && e.0 in visited ==> e.1 in visited && rank[e.1] < rank[e.0]
  }

  /** Issues are only added. */
  predicate Appends(before: seq<Issue>, after: seq<Issue>) {
    |before| <= |after| && after[..|before|] == before
  }

  lemma AppendsOver(before: seq<Issue>, between: seq<Issue>, after: seq<Issue>)
    requires Appends(before, between) && Appends(between, after)
    ensures Appends(before, after) && (after == before <==> between == before && after == between)
  {
    assert after[..|before|] == after[..|between|][..|before|];
    assert between[..|between|] == between && after[..|after|] == after;
  }

  /** The rows that the added issues of a code name. */
  function Named(before: seq<Issue>, after: seq<Issue>, code: Code): set<Id> {
    set i | |before| <= i < |after| && after[i].Issue? && after[i].code == code :: after[i].subject
  }

  function NamedLinks(before: seq<Issue>, after: seq<Issue>, code: Code): set<Edge> {
    set i | |before| <= i < |after| && after[i].LinkIssue? && after[i].code == code ::
      (after[i].prerequisite, after[i].dependent)
  }

  lemma NamedOver(before: seq<Issue>, between: seq<Issue>, after: seq<Issue>, code: Code)
    requires Appends(before, between) && Appends(between, after)
    ensures Named(before, after, code) == Named(before, between, code) + Named(between, after, code)
    ensures NamedLinks(before, after, code) == NamedLinks(before, between, code) + NamedLinks(between, after, code)
  {
    var added := after[|between|..];
    assert after == between + added && forall i :: 0 <= i < |added| ==> added[i] == after[|between| + i];
    NamedConcat(before, between, added, code);
    LinksConcat(before, between, added, code);
  }

  lemma NamedConcat(before: seq<Issue>, between: seq<Issue>, added: seq<Issue>, code: Code)
    requires |before| <= |between|
    ensures Named(before, between + added, code) == Named(before, between, code) + Named(between, between + added, code)
  {
    var after := between + added;
    forall x | x in Named(before, between, code) ensures x in Named(before, after, code) {
      var i :| |before| <= i < |between| && between[i].Issue? && between[i].code == code && between[i].subject == x;
      assert after[i] == between[i];
    }
    forall x | x in Named(before, after, code) ensures x in Named(before, between, code) + Named(between, after, code) {
      var i :| |before| <= i < |after| && after[i].Issue? && after[i].code == code && after[i].subject == x;
      if i < |between| { assert after[i] == between[i]; }
    }
  }

  lemma LinksConcat(before: seq<Issue>, between: seq<Issue>, added: seq<Issue>, code: Code)
    requires |before| <= |between|
    ensures NamedLinks(before, between + added, code) ==
            NamedLinks(before, between, code) + NamedLinks(between, between + added, code)
  {
    var after := between + added;
    forall x | x in NamedLinks(before, between, code) ensures x in NamedLinks(before, after, code) {
      var i :| |before| <= i < |between| && between[i].LinkIssue? && between[i].code == code
               && x == (between[i].prerequisite, between[i].dependent);
      assert after[i] == between[i];
    }
    forall x | x in NamedLinks(before, after, code) ensures x in NamedLinks(before, between, code) + NamedLinks(between, after, code) {
      var i :| |before| <= i < |after| && after[i].LinkIssue? && after[i].code == code
               && x == (after[i].prerequisite, after[i].dependent);
      if i < |between| { assert after[i] == between[i]; }
    }
  }

  lemma NamedOne(before: seq<Issue>, after: seq<Issue>, issue: Issue, code: Code)
    requires |before| <= |after|
    ensures Named(before, after + [issue], code) ==
            Named(before, after, code) + if issue.Issue? && issue.code == code then {issue.subject} else {}
    ensures NamedLinks(before, after + [issue], code) ==
            NamedLinks(before, after, code)
            + if issue.LinkIssue? && issue.code == code then {(issue.prerequisite, issue.dependent)} else {}
  {
    LastNamed(after, issue, code);
    NamedConcat(before, after, [issue], code);
    LinksConcat(before, after, [issue], code);
  }

  lemma LastNamed(after: seq<Issue>, issue: Issue, code: Code)
    ensures Named(after, after + [issue], code) == if issue.Issue? && issue.code == code then {issue.subject} else {}
    ensures NamedLinks(after, after + [issue], code) ==
            if issue.LinkIssue? && issue.code == code then {(issue.prerequisite, issue.dependent)} else {}
  {
    assert (after + [issue])[|after|] == issue;
  }

  lemma ReportedOne(before: seq<Issue>, after: seq<Issue>, code: Code, subject: Id, so: set<Id>)
    requires |before| <= |after|
    requires forall c :: Named(before, after, c) == if c == code then so else {}
    requires forall c :: NamedLinks(before, after, c) == {}
    ensures forall c :: Named(before, after + [Issue(code, subject)], c) == if c == code then so + {subject} else {}
    ensures forall c :: NamedLinks(before, after + [Issue(code, subject)], c) == {}
  {
    forall c { NamedOne(before, after, Issue(code, subject), c); }
  }

  lemma ReportedOneLink(before: seq<Issue>, after: seq<Issue>, code: Code, link: Edge, so: set<Edge>)
    requires |before| <= |after|
    requires forall c :: NamedLinks(before, after, c) == if c == code then so else {}
    requires forall c :: Named(before, after, c) == {}
    ensures var more := after + [LinkIssue(code, link.0, link.1)];
            && (forall c :: NamedLinks(before, more, c) == if c == code then so + {link} else {})
            && (forall c :: Named(before, more, c) == {})
  {
    forall c { NamedOne(before, after, LinkIssue(code, link.0, link.1), c); }
  }

  /** New issues carry the code and name nodes on a cycle. */
  ghost predicate SoundSince(edges: set<Edge>, code: Code, before: seq<Issue>, after: seq<Issue>) {
    && Appends(before, after)
    && forall i :: |before| <= i < |after| ==> after[i].code == code && after[i].Issue? && OnCycle(edges, after[i].subject)
  }

  /** What a cycle search adds names nodes on a cycle under its own code, and nothing else. */
  lemma SoundNames(edges: set<Edge>, code: Code, before: seq<Issue>, after: seq<Issue>)
    requires SoundSince(edges, code, before, after)
    ensures forall c :: NamedLinks(before, after, c) == {} && (c != code ==> Named(before, after, c) == {})
    ensures forall v :: v in Named(before, after, code) ==> OnCycle(edges, v)
    ensures Named(before, after, code) == {} <==> after == before
  {
    if |after| > |before| {
      assert after[|before|].subject in Named(before, after, code);
    } else {
      assert after[..|after|] == after;
    }
  }

  /** Two reports one after the other, under different codes. */
  lemma TwoReports(i0: seq<Issue>, i1: seq<Issue>, i2: seq<Issue>, c1: Code, c2: Code, w1: set<Id>, w2: set<Id>)
    requires Appends(i0, i1) && Appends(i1, i2) && c1 != c2
    requires forall c :: Named(i0, i1, c) == if c == c1 then w1 else {}
    requires forall c :: Named(i1, i2, c) == if c == c2 then w2 else {}
    ensures Named(i0, i2, c1) == w1 && Named(i0, i2, c2) == w2
    ensures forall c :: c != c1 && c != c2 ==> Named(i0, i2, c) == {}
  {
    forall c { NamedOver(i0, i1, i2, c); }
  }

  lemma TwoLinkReports(i0: seq<Issue>, i1: seq<Issue>, i2: seq<Issue>, c1: Code, c2: Code, w1: set<Edge>, w2: set<Edge>)
    requires Appends(i0, i1) && Appends(i1, i2) && c1 != c2
    requires forall c :: NamedLinks(i0, i1, c) == if c == c1 then w1 else {}
    requires forall c :: NamedLinks(i1, i2, c) == if c == c2 then w2 else {}
    ensures NamedLinks(i0, i2, c1) == w1 && NamedLinks(i0, i2, c2) == w2
  {
    NamedOver(i0, i1, i2, c1);
    NamedOver(i0, i1, i2, c2);
  }

  lemma ThreeReports(i0: seq<Issue>, i1: seq<Issue>, i2: seq<Issue>, i3: seq<Issue>, c1: Code, c2: Code, c3: Code,
                     w1: set<Id>, w2: set<Id>, w3: set<Id>)
    requires Appends(i0, i1) && Appends(i1, i2) && Appends(i2, i3) && c1 != c2 && c2 != c3 && c1 != c3
    requires forall c :: Named(i0, i1, c) == if c == c1 then w1 else {}
    requires forall c :: Named(i1, i2, c) == if c == c2 then w2 else {}
    requires forall c :: Named(i2, i3, c) == if c == c3 then w3 else {}
    ensures Named(i0, i3, c1) == w1 && Named(i0, i3, c2) == w2 && Named(i0, i3, c3) == w3
  {
    TwoReports(i0, i1, i2, c1, c2, w1, w2);
    AppendsOver(i0, i1, i2);
    NamedOver(i0, i2, i3, c1);
    NamedOver(i0, i2, i3, c2);
    NamedOver(i0, i2, i3, c3);
  }

  lemma MeetingGreyIsCycle(edges: set<Edge>, path: seq<Id>, node: Id)
    requires IsPath(edges, path) && (path[|path| - 1], node) in edges && node in path
    ensures OnCycle(edges, node)
  {
    var k :| 0 <= k < |path| && path[k] == node;
    var longer := path + [node];
    ExtendPath(edges, path, node);
    SubPath(edges, longer, k, |longer|);
    assert IsCycle(edges, longer[k..|longer|]);
  }

  /** Finishing ranks that cover the graph show it acyclic. */
  lemma AllBlackIsAcyclic(adjacency: Adjacency, visited: set<Id>, rank: map<Id, int>)
    requires Black(Edges(adjacency), visited, rank) && adjacency.Keys <= visited
    ensures Acyclic(Edges(adjacency))
  {
    var edges, reversed := Edges(adjacency), map v | v in rank :: -rank[v];
    forall e | e in edges ensures e.0 in reversed && e.1 in reversed && reversed[e.0] < reversed[e.1] {
      assert e.0 in adjacency;
    }
    RankedIsAcyclic(edges, reversed);
  }

  class ConsistencyVerifier {
    var issues: seq<Issue>

    constructor ()
      ensures issues == []
    {
      issues := [];
    }

    /** Reports a grey node met again. */
    method ReportCycle(code: Code, subject: Id, ghost edges: set<Edge>, ghost path: seq<Id>)
      requires IsPath(edges, path) && (path[|path| - 1], subject) in edges && subject in path
      modifies this
      ensures issues == old(issues) + [Issue(code, subject)] && SoundSince(edges, code, old(issues), issues)
    {
      MeetingGreyIsCycle(edges, path, subject);
      issues := issues + [Issue(code, subject)];
    }

    /** Visits a node: a grey node closes a cycle, a black one is done, a white one turns
        grey, has its targets visited, and turns black. */
    method Visit(adjacency: Adjacency, code: Code, node: Id, visiting: set<Id>, visited0: set<Id>,
                 ghost edges: set<Edge>, ghost all: set<Id>, ghost path: seq<Id>, ghost rank0: map<Id, int>)
      returns (visited: set<Id>, ghost rank: map<Id, int>)
      requires Links(adjacency, edges, all) && node in all && visiting <= all
      requires Grey(edges, visiting, path) && visiting !! visited0
      requires path != [] ==> (path[|path| - 1], node) in edges
      modifies this
      ensures visited0 <= visited && visiting !! visited && SoundSince(edges, code, old(issues), issues)
      ensures issues == old(issues) && Black(edges, visited0, rank0) ==>
                Black(edges, visited, rank) && node in visited
      decreases |all - visiting|, 1
    {
      visited, rank := visited0, rank0;
      if node in visiting {
        ReportCycle(code, node, edges, path);
      } else if node !in visited {
        visited, rank := VisitWhite(adjacency, code, node, visiting, visited0, edges, all, path, rank0);
      }
    }

    /** A white node turns grey while its targets are visited, and then black. */
    method VisitWhite(adjacency: Adjacency, code: Code, node: Id, visiting: set<Id>, visited0: set<Id>,
                      ghost edges: set<Edge>, ghost all: set<Id>, ghost path: seq<Id>, ghost rank0: map<Id, int>)
      returns (visited: set<Id>, ghost rank: map<Id, int>)
      requires Links(adjacency, edges, all) && node in all && visiting <= all
      requires Grey(edges, visiting, path) && visiting !! visited0 && node !in visiting && node !in visited0
      requires path != [] ==> (path[|path| - 1], node) in edges
      modifies this
      ensures visited0 <= visited && visiting !! visited && SoundSince(edges, code, old(issues), issues)
      ensures issues == old(issues) && Black(edges, visited0, rank0) ==>
                Black(edges, visited, rank) && node in visited
      decreases |all - visiting|, 0
    {
      var targets := if node in adjacency then adjacency[node] else {};
      GreyOne(edges, all, visiting, path, node);
      visited, rank := VisitAll(adjacency, code, targets, visiting + {node}, visited0, edges, all, path + [node], rank0);
      if issues == old(issues) && Black(edges, visited0, rank0) {
        BlackOne(edges, visited, rank, node);
      }
      visited, rank := visited + {node}, rank[node := |visited|];
    }

    /** Visits the targets of the node at the end of the path. */
    method VisitAll(adjacency: Adjacency, code: Code, targets: set<Id>, visiting: set<Id>, visited0: set<Id>,
                    ghost edges: set<Edge>, ghost all: set<Id>, ghost path: seq<Id>, ghost rank0: map<Id, int>)
      returns (visited: set<Id>, ghost rank: map<Id, int>)
      requires Links(adjacency, edges, all) && targets <= all && visiting <= all
      requires path != [] && Grey(edges, visiting, path) && visiting !! visited0
      requires forall v :: v in targets ==> (path[|path| - 1], v) in edges
      modifies this
      ensures visited0 <= visited && visiting !! visited && SoundSince(edges, code, old(issues), issues)
      ensures issues == old(issues) && Black(edges, visited0, rank0) ==>
                Black(edges, visited, rank) && targets <= visited
      decreases |all - visiting|, 2
    {
      visited, rank := visited0, rank0;
      var left := targets;
      while left != {}
        invariant left <= targets && visited0 <= visited && visiting !! visited
        invariant SoundSince(edges, code, old(issues), issues)
        invariant issues == old(issues) && Black(edges, visited0, rank0) ==>
                    Black(edges, visited, rank) && targets - left <= visited
        decreases left
      {
        var target :| target in left;
        left := left - {target};
        ghost var before := issues;
        visited, rank := Visit(adjacency, code, target, visiting, visited, edges, all, path, rank);
        SoundOver(edges, code, old(issues), before, issues);
      }
    }

    /** Visits every node with outgoing links. Something is reported exactly when the links
        form a cycle, and everything reported lies on one. */
    method VerifyDirectedCycles(adjacency: Adjacency, code: Code)
      modifies this
      ensures SoundSince(Edges(adjacency), code, old(issues), issues)
      ensures issues == old(issues) <==> Acyclic(Edges(adjacency))
    {
      ghost var edges := Edges(adjacency);
      ghost var all := adjacency.Keys + Nodes(edges);
      LinksOf(adjacency);
      var visited, left := {}, adjacency.Keys;
      ghost var rank := map[];
      while left != {}
        invariant left <= adjacency.Keys && SoundSince(edges, code, old(issues), issues)
        invariant issues == old(issues) ==>
                    Black(edges, visited, rank) && adjacency.Keys - left <= visited
        decreases left
      {
        ghost var least := LeastExists(left);
        var node :| node in left && forall u :: u in left ==> node <= u;
        left := left - {node};
        ghost var before := issues;
        visited, rank := Visit(adjacency, code, node, {}, visited, edges, all, [], rank);
        SoundOver(edges, code, old(issues), before, issues);
      }
      if issues == old(issues) {
        AllBlackIsAcyclic(adjacency, visited, rank);
      } else {
        assert OnCycle(edges, issues[|old(issues)|].subject);
      }
    }

    // ----- row checks

    /** Reports each row found wrong. */
    method ReportEach(code: Code, wrong: set<Id>)
      modifies this
      ensures Appends(old(issues), issues) && (issues == old(issues) <==> wrong == {})
      ensures forall c :: Named(old(issues), issues, c) == if c == code then wrong else {}
      ensures forall c :: NamedLinks(old(issues), issues, c) == {}
    {
      var left := wrong;
      while left != {}
        invariant left <= wrong && Appends(old(issues), issues) && (issues == old(issues) <==> left == wrong)
        invariant forall c :: Named(old(issues), issues, c) == if c == code then wrong - left else {}
        invariant forall c :: NamedLinks(old(issues), issues, c) == {}
        decreases left
      {
        var subject :| subject in left;
        ReportedOne(old(issues), issues, code, subject, wrong - left);
        assert wrong - (left - {subject}) == (wrong - left) + {subject};
        left := left - {subject};
        issues := issues + [Issue(code, subject)];
      }
    }

    method ReportEachLink(code: Code, wrong: set<Edge>)
      modifies this
      ensures Appends(old(issues), issues) && (issues == old(issues) <==> wrong == {})
      ensures forall c :: Named(old(issues), issues, c) == {}
      ensures forall c :: NamedLinks(old(issues), issues, c) == if c == code then wrong else {}
    {
      var left := wrong;
      while left != {}
        invariant left <= wrong && Appends(old(issues), issues) && (issues == old(issues) <==> left == wrong)
        invariant forall c :: Named(old(issues), issues, c) == {}
        invariant forall c :: NamedLinks(old(issues), issues, c) == if c == code then wrong - left else {}
        decreases left
      {
        var link :| link in left;
        ReportedOneLink(old(issues), issues, code, link, wrong - left);
        assert wrong - (left - {link}) == (wrong - left) + {link};
        left := left - {link};
        issues := issues + [LinkIssue(code, link.0, link.1)];
      }
    }

    // ----- Kahn's algorithm over one version's items

    /** The item graph of a version; dependencies on unknown items are passed over. */
    method BuildItemGraph(nodes: set<Id>, dependencies: set<Edge>)
      returns (outgoing: map<Id, set<Id>>, indegree: map<Id, int>, ghost kept: seq<Edge>)
      ensures Built(nodes, kept, outgoing, indegree) && Known(nodes, kept) && NoDuplicates(kept)
      ensures EdgeSet(kept) == KnownEdges(nodes, dependencies)
    {
      outgoing, indegree, kept := map v | v in nodes :: {}, map v | v in nodes :: 0, [];
      var left := dependencies;
      while left != {}
        invariant left <= dependencies && Built(nodes, kept, outgoing, indegree) && NoDuplicates(kept)
        invariant EdgeSet(kept) == KnownEdges(nodes, dependencies - left)
        decreases left
      {
        var edge :| edge in left;
        KnownOne(nodes, dependencies, left, kept, edge);
        left := left - {edge};
        if edge.0 in nodes && edge.1 in nodes {
          BuildOne(nodes, kept, edge, outgoing, indegree);
          outgoing := outgoing[edge.0 := outgoing[edge.0] + {edge.1}];
          indegree := indegree[edge.1 := indegree[edge.1] + 1];
          kept := kept + [edge];
        }
      }
      assert dependencies - {} == dependencies;
      assert forall e :: e in kept ==> e in EdgeSet(kept);
    }

    /** Lowers the count of each dependent; those at zero go on top of the stack. */
    method ReleaseOnto(dependents: set<Id>, indegree0: map<Id, int>, stack0: seq<Id>)
      returns (indegree: map<Id, int>, stack: seq<Id>)
      requires dependents <= indegree0.Keys && NoDuplicates(stack0)
      requires forall v :: v in Elements(stack0) ==> v in indegree0 && indegree0[v] == 0
      ensures Lowered(indegree0, indegree, dependents, {}) && NoDuplicates(stack)
      ensures Released(indegree0, Elements(stack0), Elements(stack), dependents, {})
    {
      indegree, stack := indegree0, stack0;
      var left := dependents;
      while left != {}
        invariant left <= dependents && NoDuplicates(stack)
        invariant Lowered(indegree0, indegree, dependents, left)
        invariant Released(indegree0, Elements(stack0), Elements(stack), dependents, left)
        decreases left
      {
        var dependent :| dependent in left;
        LowerOne(indegree0, indegree, Elements(stack0), Elements(stack), dependents, left, dependent);
        left := left - {dependent};
        indegree := indegree[dependent := indegree[dependent] - 1];
        if indegree[dependent] == 0 {
          assert dependent !in Elements(stack);
          assert Elements(stack + [dependent]) == Elements(stack) + {dependent};
          stack := stack + [dependent];
        }
      }
    }

    /** Visits the items from a stack of those without open prerequisites; an item never
        visited means a cycle. */
    method VerifyItemCycle(version: Id, nodes: set<Id>, dependencies: set<Edge>)
      modifies this
      ensures issues == old(issues) + if Acyclic(KnownEdges(nodes, dependencies)) then []
                                      else [Issue(PlanItemDependencyCycle, version)]
    {
      var outgoing, indegree;
      ghost var kept;
      outgoing, indegree, kept := BuildItemGraph(nodes, dependencies);
      var visited := VisitItems(nodes, outgoing, indegree, kept);
      if visited != |nodes| {
        issues := issues + [Issue(PlanItemDependencyCycle, version)];
      }
    }

    method VisitItems(nodes: set<Id>, outgoing: map<Id, set<Id>>, indegree0: map<Id, int>, ghost edges: seq<Edge>)
      returns (visited: nat)
      requires Built(nodes, edges, outgoing, indegree0) && Known(nodes, edges) && NoDuplicates(edges)
      ensures visited == |nodes| <==> Acyclic(EdgeSet(edges))
    {
      var indegree := indegree0;
      var stack := Sources(nodes, indegree);
      visited := 0;
      ghost var done, rank := {}, map[];
      SearchStarts(nodes, edges, outgoing, indegree, stack);
      while stack != []
        invariant Searching(nodes, edges, indegree, done, stack, rank, visited)
        decreases nodes - done
      {
        indegree, stack, done, rank := VisitTop(nodes, outgoing, indegree, stack, edges, done, rank, visited);
        visited := visited + 1;
      }
      AllVisitedIffAcyclic(nodes, edges, indegree, done, rank, visited);
    }

    /** Pops the top of the stack and releases its dependents. */
    method VisitTop(nodes: set<Id>, outgoing: map<Id, set<Id>>, indegree0: map<Id, int>, stack0: seq<Id>,
                    ghost edges: seq<Edge>, ghost done0: set<Id>, ghost rank0: map<Id, int>, ghost n: nat)
      returns (indegree: map<Id, int>, stack: seq<Id>, ghost done: set<Id>, ghost rank: map<Id, int>)
      requires stack0 != [] && Searching(nodes, edges, indegree0, done0, stack0, rank0, n) && Known(nodes, edges)
      requires outgoing.Keys == nodes && forall v :: v in nodes ==> outgoing[v] == Dependents(edges, v)
      ensures Searching(nodes, edges, indegree, done, stack, rank, n + 1) && nodes - done < nodes - done0
    {
      var current, rest := stack0[|stack0| - 1], stack0[..|stack0| - 1];
      Popped(stack0, rest, current);
      DependentsAreNodes(nodes, edges, current);
      indegree, stack := ReleaseOnto(outgoing[current], indegree0, rest);
      done, rank := done0 + {current}, rank0[current := n];
      VisitOne(nodes, edges, current, outgoing[current], indegree0, indegree, Elements(stack0), Elements(stack), done0, rank0, n);
    }

    /** The items without prerequisites, in some order. */
    method Sources(nodes: set<Id>, indegree: map<Id, int>) returns (stack: seq<Id>)
      requires indegree.Keys == nodes
      ensures NoDuplicates(stack) && Elements(stack) == set v | v in nodes && indegree[v] == 0
    {
      var zero := set v | v in nodes && indegree[v] == 0;
      var left := zero;
      stack := [];
      while left != {}
        invariant left <= zero && NoDuplicates(stack) && Elements(stack) == zero - left
        decreases left
      {
        var v :| v in left;
        assert v !in Elements(stack);
        assert Elements(stack + [v]) == Elements(stack) + {v};
        stack, left := stack + [v], left - {v};
      }
    }
  }

  /** The dependencies between the version's own items. */
  function KnownEdges(nodes: set<Id>, dependencies: set<Edge>): set<Edge> {
    set e | e in dependencies && e.0 in nodes && e.1 in nodes
  }

  lemma KnownOne(nodes: set<Id>, dependencies: set<Edge>, left: set<Edge>, kept: seq<Edge>, e: Edge)
    requires left <= dependencies && e in left && NoDuplicates(kept)
    requires EdgeSet(kept) == KnownEdges(nodes, dependencies - left)
    ensures var seen := KnownEdges(nodes, dependencies - (left - {e}));
            if e.0 in nodes && e.1 in nodes then NoDuplicates(kept + [e]) && EdgeSet(kept + [e]) == seen
            else EdgeSet(kept) == seen
  {
    assert dependencies - (left - {e}) == (dependencies - left) + {e};
    assert e in kept ==> e in EdgeSet(kept);
    assert EdgeSet(kept + [e]) == EdgeSet(kept) + {e};
  }

  /** The search's invariant: the stack holds the unvisited items without open prerequisites. */
  ghost predicate Searching(nodes: set<Id>, edges: seq<Edge>, indegree: map<Id, int>, done: set<Id>, stack: seq<Id>,
                            rank: map<Id, int>, n: int) {
    && Counted(nodes, edges, indegree, done) && AtZero(indegree, done, Elements(stack)) && NoDuplicates(stack)
    && Ranked(edges, done, rank, n) && n == |done|
  }

  lemma SearchStarts(nodes: set<Id>, edges: seq<Edge>, outgoing: map<Id, set<Id>>, indegree: map<Id, int>, stack: seq<Id>)
    requires Built(nodes, edges, outgoing, indegree) && NoDuplicates(stack)
    requires Elements(stack) == set v | v in nodes && indegree[v] == 0
    ensures Searching(nodes, edges, indegree, {}, stack, map[], 0)
  {
    CountedAtFirst(nodes, edges, outgoing, indegree);
    assert AtZero(indegree, {}, Elements(stack));
    assert Ranked(edges, {}, map[], 0);
  }

  lemma AllVisitedIffAcyclic(nodes: set<Id>, edges: seq<Edge>, indegree: map<Id, int>, done: set<Id>,
                             rank: map<Id, int>, n: int)
    requires Known(nodes, edges) && Counted(nodes, edges, indegree, done) && AtZero(indegree, done, {})
    requires Ranked(edges, done, rank, n) && n == |done| && NoDuplicates(edges)
    ensures n == |nodes| <==> Acyclic(EdgeSet(edges))
  {
    if n == |nodes| {
      AllVisited(nodes, edges, indegree, done, rank, n);
    } else {
      StuckEarly(nodes, edges, indegree, done);
    }
  }

  lemma Popped(stack: seq<Id>, rest: seq<Id>, top: Id)
    requires NoDuplicates(stack) && stack != [] && rest == stack[..|stack| - 1] && top == stack[|stack| - 1]
    ensures NoDuplicates(rest) && Elements(rest) == Elements(stack) - {top} && top in Elements(stack)
  {
    assert stack == rest + [top];
    assert forall i :: 0 <= i < |rest| ==> rest[i] == stack[i];
  }

  lemma GreyOne(edges: set<Edge>, all: set<Id>, visiting: set<Id>, path: seq<Id>, node: Id)
    requires Grey(edges, visiting, path) && (path != [] ==> (path[|path| - 1], node) in edges)
    requires node in all && node !in visiting
    ensures Grey(edges, visiting + {node}, path + [node])
    ensures |all - (visiting + {node})| < |all - visiting|
  {
    if path != [] { ExtendPath(edges, path, node); }
    assert Elements(path + [node]) == Elements(path) + {node};
    SmallerDifference(all, visiting, node);
  }

  lemma BlackOne(edges: set<Edge>, visited: set<Id>, rank: map<Id, int>, node: Id)
    requires Black(edges, visited, rank) && node !in visited
    requires forall e :: e in edges && e.0 == node ==> e.1 in visited
    ensures Black(edges, visited + {node}, rank[node := |visited|])
  {
    assert |visited + {node}| == |visited| + 1;
  }

  lemma SoundOver(edges: set<Edge>, code: Code, before: seq<Issue>, between: seq<Issue>, after: seq<Issue>)
    requires SoundSince(edges, code, before, between) && SoundSince(edges, code, between, after)
    ensures SoundSince(edges, code, before, after)
    ensures after == before ==> between == before && after == between
  {
    assert after[..|before|] == after[..|between|][..|before|];
    forall i | |before| <= i < |after| ensures after[i].code == code && after[i].Issue? && OnCycle(edges, after[i].subject) {
      if i < |between| { assert after[i] == after[..|between|][i]; }
    }
  }
}
