/** Which item of an approved plan to work on next, and why the choice cannot deadlock. */
module PlanNextAction {
  import opened Basics
  import opened Graphs
  import opened PlanGraph

  datatype ProgressStatus = NotStarted | InProgress | Completed | Waiting | Blocked | Skipped

  /** An item of the approved version with its progress, in ordinal order. */
  datatype Row = Row(item: Id, status: ProgressStatus)

  // ----- what the query answers

  predicate IsDone(rows: seq<Row>, item: Id) {
    exists k :: 0 <= k < |rows| && rows[k] == Row(item, Completed)
  }

  predicate Ready(rows: seq<Row>, deps: set<Edge>, item: Id) {
    forall e :: e in deps && e.1 == item ==> IsDone(rows, e.0)
  }

  /** Work in progress comes first; otherwise an item may start. */
  predicate Eligible(rows: seq<Row>, deps: set<Edge>, k: nat)
    requires k < |rows|
  {
    if exists j :: 0 <= j < |rows| && rows[j].status == InProgress then rows[k].status == InProgress
    else rows[k].status == NotStarted && Ready(rows, deps, rows[k].item)
  }

  /** The first eligible row. */
  ghost predicate IsNextAction(rows: seq<Row>, deps: set<Edge>, r: Option<nat>) {
    match r
    case Some(k) => k < |rows| && Eligible(rows, deps, k) && forall j :: 0 <= j < k ==> !Eligible(rows, deps, j)
    case None => forall j :: 0 <= j < |rows| ==> !Eligible(rows, deps, j)
  }

  function Prerequisites(deps: set<Edge>, item: Id): set<Id> {
    set e | e in deps && e.1 == item :: e.0
  }

  method CollectPrerequisites(deps: set<Edge>) returns (prerequisites: map<Id, set<Id>>)
    ensures forall item :: (if item in prerequisites then prerequisites[item] else {}) == Prerequisites(deps, item)
  {
    prerequisites := map[];
    var left := deps;
    while left != {}
      invariant left <= deps
      invariant forall item :: (if item in prerequisites then prerequisites[item] else {}) == Prerequisites(deps - left, item)
      decreases left
    {
      var e :| e in left;
      var known := if e.1 in prerequisites then prerequisites[e.1] else {};
      prerequisites := prerequisites[e.1 := known + {e.0}];
      assert deps - (left - {e}) == (deps - left) + {e};
      forall item ensures Prerequisites((deps - left) + {e}, item)
                          == Prerequisites(deps - left, item) + (if e.1 == item then {e.0} else {}) {
        PrerequisitesOfMore(deps - left, e, item);
      }
      left := left - {e};
    }
    assert deps - {} == deps;
  }

  lemma PrerequisitesOfMore(deps: set<Edge>, e: Edge, item: Id)
    ensures Prerequisites(deps + {e}, item) == Prerequisites(deps, item) + (if e.1 == item then {e.0} else {})
  {
  }

  method GetNextAction(rows: seq<Row>, deps: set<Edge>) returns (r: Option<nat>)
    ensures IsNextAction(rows, deps, r)
  {
    for k := 0 to |rows|
      invariant forall j :: 0 <= j < k ==> rows[j].status != InProgress
    {
      if rows[k].status == InProgress {
        return Some(k);
      }
    }
    var done := set k | 0 <= k < |rows| && rows[k].status == Completed :: rows[k].item;
    var prerequisites := CollectPrerequisites(deps);
    for k := 0 to |rows|
      invariant forall j :: 0 <= j < k ==> !Eligible(rows, deps, j)
    {
      if rows[k].status == NotStarted {
        var needed := if rows[k].item in prerequisites then prerequisites[rows[k].item] else {};
        ReadyMeans(rows, deps, rows[k].item, needed, done);
        if needed <= done {
          return Some(k);
        }
      }
    }
    return None;
  }

  lemma ReadyMeans(rows: seq<Row>, deps: set<Edge>, item: Id, needed: set<Id>, done: set<Id>)
    requires needed == Prerequisites(deps, item)
    requires done == set k | 0 <= k < |rows| && rows[k].status == Completed :: rows[k].item
    ensures needed <= done <==> Ready(rows, deps, item)
  {
    forall u ensures u in done <==> IsDone(rows, u) {
      if u in done {
        var k :| 0 <= k < |rows| && rows[k].status == Completed && rows[k].item == u;
        assert rows[k] == Row(u, Completed);
      }
    }
    if needed <= done {
      forall e | e in deps && e.1 == item ensures IsDone(rows, e.0) { assert e.0 in needed; }
    }
  }

  // ----- no deadlock

  /** The rows of a version: each item once, dependencies between its items, no cycle. */
  ghost predicate PlanRows(rows: seq<Row>, deps: set<Edge>) {
    && (forall i, j :: 0 <= i < j < |rows| ==> rows[i].item != rows[j].item)
    && (forall e :: e in deps ==> HasItem(rows, e.0) && HasItem(rows, e.1))
    && Acyclic(deps)
  }

  predicate HasItem(rows: seq<Row>, item: Id) {
    exists k :: 0 <= k < |rows| && rows[k].item == item
  }

  predicate Stalled(status: ProgressStatus) {
    status == Waiting || status == Blocked || status == Skipped
  }

  ghost predicate HasStatus(rows: seq<Row>, item: Id, status: ProgressStatus) {
    exists k :: 0 <= k < |rows| && rows[k] == Row(item, status)
  }

  /** Dependencies that hold an unstarted item back. */
  ghost function HoldingEdges(rows: seq<Row>, deps: set<Edge>): set<Edge> {
    set e | e in deps && !IsDone(rows, e.0) && HasStatus(rows, e.1, NotStarted)
  }

  /** A chain of unstarted items leads from a waiting, blocked or skipped item to this one. */
  ghost predicate HeldBack(rows: seq<Row>, deps: set<Edge>, item: Id) {
    exists k :: 0 <= k < |rows| && Stalled(rows[k].status) && Reaches(HoldingEdges(rows, deps), rows[k].item, item)
  }

  /** Nothing is offered exactly when nothing is in progress and every unstarted item is
      held back by a chain of unstarted items that begins at a stalled one. */
  lemma NothingOfferedIff(rows: seq<Row>, deps: set<Edge>, r: Option<nat>)
    requires PlanRows(rows, deps) && IsNextAction(rows, deps, r)
    ensures r.None? <==>
              forall k :: 0 <= k < |rows| ==>
                rows[k].status != InProgress && (rows[k].status == NotStarted ==> HeldBack(rows, deps, rows[k].item))
  {
    if r.None? {
      forall k | 0 <= k < |rows|
        ensures rows[k].status != InProgress
      {
        assert !Eligible(rows, deps, k);
      }
      UnofferedAreHeldBack(rows, deps);
    } else if rows[r.value].status == NotStarted && HeldBack(rows, deps, rows[r.value].item) {
      HeldBackIsNotReady(rows, deps, r.value);
    }
  }

  lemma UnofferedAreHeldBack(rows: seq<Row>, deps: set<Edge>)
    requires PlanRows(rows, deps) && IsNextAction(rows, deps, None)
    ensures forall k :: 0 <= k < |rows| && rows[k].status == NotStarted ==> HeldBack(rows, deps, rows[k].item)
  {
    var free := set k | 0 <= k < |rows| && rows[k].status == NotStarted && !HeldBack(rows, deps, rows[k].item) :: rows[k].item;
    if free != {} {
      forall v | v in free ensures HasPredecessorIn(deps, free, v) {
        var k :| 0 <= k < |rows| && rows[k].status == NotStarted && !HeldBack(rows, deps, v) && rows[k].item == v;
        var u := FreePredecessor(rows, deps, k);
        assert u in free;
      }
      NoSourceHasCycle(deps, free);
    }
    forall k | 0 <= k < |rows| && rows[k].status == NotStarted ensures HeldBack(rows, deps, rows[k].item) {
      assert rows[k].item !in free;
    }
  }

  /** An unstarted item that is not held back, yet not ready, has a prerequisite like itself. */
  lemma FreePredecessor(rows: seq<Row>, deps: set<Edge>, k: nat) returns (u: Id)
    requires PlanRows(rows, deps) && IsNextAction(rows, deps, None) && k < |rows|
    requires rows[k].status == NotStarted && !HeldBack(rows, deps, rows[k].item)
    ensures (u, rows[k].item) in deps
    ensures exists j :: 0 <= j < |rows| && rows[j].status == NotStarted && !HeldBack(rows, deps, u) && rows[j].item == u
  {
    var v := rows[k].item;
    assert !Eligible(rows, deps, k);
    forall j | 0 <= j < |rows| ensures rows[j].status != InProgress { assert !Eligible(rows, deps, j); }
    var e :| e in deps && e.1 == v && !IsDone(rows, e.0);
    u := e.0;
    var j :| 0 <= j < |rows| && rows[j].item == u;
    var holding := HoldingEdges(rows, deps);
    assert rows[k] == Row(v, NotStarted) && rows[j] == Row(u, rows[j].status);
    assert e in holding;
    if Stalled(rows[j].status) {
      ReachesSelf(holding, u);
      ReachesStep(holding, u, u, v);
    }
    if HeldBack(rows, deps, u) {
      var s :| 0 <= s < |rows| && Stalled(rows[s].status) && Reaches(holding, rows[s].item, u);
      ReachesStep(holding, rows[s].item, u, v);
    }
  }

  lemma HeldBackIsNotReady(rows: seq<Row>, deps: set<Edge>, k: nat)
    requires PlanRows(rows, deps) && k < |rows| && rows[k].status == NotStarted && HeldBack(rows, deps, rows[k].item)
    ensures !Ready(rows, deps, rows[k].item)
  {
    var holding := HoldingEdges(rows, deps);
    var s :| 0 <= s < |rows| && Stalled(rows[s].status) && Reaches(holding, rows[s].item, rows[k].item);
    var path :| PathFromTo(holding, path, rows[s].item, rows[k].item);
    assert |path| > 1;
    assert (path[|path| - 2], path[|path| - 1]) in holding;
  }

  /** No deadlock: while every item is unstarted, in progress or done, and some item is not
      done, the query offers an item. */
  lemma NoDeadlock(rows: seq<Row>, deps: set<Edge>, r: Option<nat>)
    requires PlanRows(rows, deps) && IsNextAction(rows, deps, r)
    requires forall k :: 0 <= k < |rows| ==> !Stalled(rows[k].status)
    ensures r.None? <==> forall k :: 0 <= k < |rows| ==> rows[k].status == Completed
  {
    NothingOfferedIff(rows, deps, r);
    assert forall k :: 0 <= k < |rows| ==> !HeldBack(rows, deps, rows[k].item);
  }

  /** A skipped prerequisite is not a done one: its dependents are never offered. */
  lemma SkippedPrerequisiteStallsPlan()
    ensures var rows := [Row(1, Skipped), Row(2, NotStarted)];
            PlanRows(rows, {(1, 2)}) && IsNextAction(rows, {(1, 2)}, None)
  {
    var rows := [Row(1, Skipped), Row(2, NotStarted)];
    RankedIsAcyclic({(1, 2)}, map[1 := 1, 2 := 2]);
    assert rows[0].item == 1 && rows[1].item == 2;
    assert (1, 2) in {(1, 2)} && !IsDone(rows, 1);
    assert !Ready(rows, {(1, 2)}, 2);
  }

  // ----- driving a plan from its approval

  /** The rows once those at the given positions are done. */
  function After(rows: seq<Row>, order: seq<nat>): seq<Row> {
    seq(|rows|, k requires 0 <= k < |rows| => if k in order then Row(rows[k].item, Completed) else rows[k])
  }

  /** Each position is the one offered once those before it were marked done. */
  ghost predicate Driven(rows: seq<Row>, deps: set<Edge>, order: seq<nat>) {
    forall i :: 0 <= i < |order| ==> IsNextAction(After(rows, order[..i]), deps, Some(order[i]))
  }

  ghost predicate Unstarted(rows: seq<Row>) {
    forall k :: 0 <= k < |rows| ==> rows[k].status == NotStarted
  }

  lemma SomeNextAction(rows: seq<Row>, deps: set<Edge>) returns (r: Option<nat>)
    ensures IsNextAction(rows, deps, r)
  {
    for k := 0 to |rows|
      invariant forall j :: 0 <= j < k ==> !Eligible(rows, deps, j)
    {
      if Eligible(rows, deps, k) {
        return Some(k);
      }
    }
    return None;
  }

  lemma AfterIsPlanRows(rows: seq<Row>, deps: set<Edge>, order: seq<nat>)
    requires PlanRows(rows, deps)
    ensures PlanRows(After(rows, order), deps)
  {
    var after := After(rows, order);
    forall e | e in deps ensures HasItem(after, e.0) && HasItem(after, e.1) {
      var i :| 0 <= i < |rows| && rows[i].item == e.0;
      var j :| 0 <= j < |rows| && rows[j].item == e.1;
      assert after[i].item == e.0 && after[j].item == e.1;
    }
  }

  /** What is offered next is a row not done yet. */
  lemma DrivenIsFresh(rows: seq<Row>, deps: set<Edge>, order: seq<nat>)
    requires Unstarted(rows) && Driven(rows, deps, order)
    ensures NoDuplicates(order) && forall i :: 0 <= i < |order| ==> order[i] < |rows|
  {
    forall i, j | 0 <= i < j < |order| ensures order[i] != order[j] {
      var after := After(rows, order[..j]);
      assert IsNextAction(after, deps, Some(order[j]));
      assert forall k :: 0 <= k < |after| ==> after[k].status != InProgress;
      assert order[..j][i] == order[i];
    }
    forall i | 0 <= i < |order| ensures order[i] < |rows| {
      assert IsNextAction(After(rows, order[..i]), deps, Some(order[i]));
    }
  }

  function Below(n: nat): (r: set<nat>)
    ensures |r| == n && forall k: nat :: k in r <==> k < n
  {
    if n == 0 then {} else Below(n - 1) + {n - 1}
  }

  lemma Pigeonhole(order: seq<nat>, n: nat)
    requires NoDuplicates(order) && forall i :: 0 <= i < |order| ==> order[i] < n
    ensures |order| <= n
    ensures |order| == n <==> forall k: nat :: k < n ==> k in order
  {
    var all, used := Below(n), ToSet(order);
    SetSize(order);
    assert forall k :: k in used ==> k in all;
    DifferenceSize(all, used);
    assert |order| == n <==> all - used == {};
    forall k: nat | k < n ensures k in order <==> k !in all - used {
      assert k in all;
    }
  }

  /** From approval, marking the offered item done again and again never gets stuck: it
      finishes all n items in exactly n steps, each after its prerequisites. */
  lemma DrivenPlanFinishes(rows: seq<Row>, deps: set<Edge>, order: seq<nat>)
    requires PlanRows(rows, deps) && Unstarted(rows) && Driven(rows, deps, order)
    ensures |order| <= |rows|
    ensures |order| < |rows| ==> exists k :: Driven(rows, deps, order + [k])
    ensures |order| == |rows| ==> IsNextAction(After(rows, order), deps, None)
                                  && forall k :: 0 <= k < |rows| ==> After(rows, order)[k].status == Completed
  {
    DrivenIsFresh(rows, deps, order);
    Pigeonhole(order, |rows|);
    var after := After(rows, order);
    AfterIsPlanRows(rows, deps, order);
    var r := SomeNextAction(after, deps);
    NoDeadlock(after, deps, r);
    if |order| < |rows| {
      var k :| 0 <= k < |rows| && k !in order;
      assert after[k].status == NotStarted;
      var longer := order + [r.value];
      forall i | 0 <= i < |longer| ensures IsNextAction(After(rows, longer[..i]), deps, Some(longer[i])) {
        assert longer[..i] == order[..i];
        assert order[..|order|] == order;
      }
      assert Driven(rows, deps, longer);
    }
  }

  lemma DrivenOrderRespectsDependencies(rows: seq<Row>, deps: set<Edge>, order: seq<nat>, e: Edge, j: nat)
    requires PlanRows(rows, deps) && Unstarted(rows) && Driven(rows, deps, order)
    requires e in deps && j < |order| && order[j] < |rows| && rows[order[j]].item == e.1
    ensures exists i :: 0 <= i < j && order[i] < |rows| && rows[order[i]].item == e.0
  {
    var after := After(rows, order[..j]);
    assert IsNextAction(after, deps, Some(order[j]));
    assert forall k :: 0 <= k < |after| ==> after[k].status != InProgress;
    assert Ready(after, deps, after[order[j]].item);
    assert IsDone(after, e.0);
    var k :| 0 <= k < |after| && after[k] == Row(e.0, Completed);
    assert k in order[..j];
    var i :| 0 <= i < j && order[..j][i] == k;
    assert order[i] == k;
  }
}
