/** What holds over whole runs of the planning services. */
module PlanningRuns {
  import opened Basics
  import opened Graphs
  import opened PlanGraph
  import opened PlanNextAction
  import opened PlanningModel
  import opened PlanningLifecycle
  import opened PlanningSteps

  // ----- version numbers

  /** The versions of a plan are numbered exactly 1..n. */
  lemma NumbersAreExactly(commands: seq<Command>, plan: Id, k: nat)
    ensures var s := Run(commands);
            1 <= k <= |VersionsOf(s.versions, plan)| <==>
            exists v :: v in VersionsOf(s.versions, plan) && s.versions[v].number == k
  {
    assert NumbersOk(Run(commands).versions) by { ReachablePlanningOk(commands); }
    NumbersCover(Run(commands).versions, VersionsOf(Run(commands).versions, plan), k);
  }

  lemma NumbersCover(versions: Versions, own: set<Id>, k: nat)
    requires own <= versions.Keys && forall v :: v in own ==> 1 <= versions[v].number <= |own|
    requires forall v, w :: v in own && w in own && v != w ==> versions[v].number != versions[w].number
    ensures 1 <= k <= |own| <==> exists v :: v in own && versions[v].number == k
  {
    DistinctNumbers(versions, own);
    var numbers, all := Numbers(versions, own), Below(|own| + 1) - {0};
    DifferenceSize(Below(|own| + 1), {0});
    assert numbers <= all;
    DifferenceSize(all, numbers);
    if 1 <= k <= |own| {
      assert k in all && all - numbers == {};
    }
  }

  function Numbers(versions: Versions, among: set<Id>): set<nat>
    requires among <= versions.Keys
  {
    set v | v in among :: versions[v].number
  }

  lemma {:induction false} DistinctNumbers(versions: Versions, among: set<Id>)
    requires among <= versions.Keys
    requires forall v, w :: v in among && w in among && v != w ==> versions[v].number != versions[w].number
    ensures |Numbers(versions, among)| == |among|
    decreases |among|
  {
    if among != {} {
      var v :| v in among;
      DistinctNumbers(versions, among - {v});
      assert Numbers(versions, among) == Numbers(versions, among - {v}) + {versions[v].number};
    }
  }

  // ----- approval

  ghost predicate EverApproved(commands: seq<Command>, v: Id) {
    exists k :: 0 <= k <= |commands| && ApprovedAt(commands, k, v)
  }

  ghost predicate ApprovedAt(commands: seq<Command>, k: nat, v: Id)
    requires k <= |commands|
  {
    var s := Run(commands[..k]);
    v in s.versions && s.versions[v].status == Approved
  }

  /** Approval metadata appears with the approved status and never goes away. */
  lemma ApprovalStep(s: Planning, c: Command, v: Id)
    requires v in Next(s, c).versions && LifecycleOk(s.versions)
    ensures var after := Next(s, c).versions[v];
            after.approval.Some? <==> (v in s.versions && s.versions[v].approval.Some?) || after.status == Approved
  {
    assert v in s.versions ==> ApprovalFits(s.versions[v]);
    if Next(s, c) != s {
      if c.Approve? || c.Reactivate? {
        ApprovingStep(s, c, v);
      } else {
        UnapprovingStep(s, c, v);
      }
    }
  }

  lemma ApprovingStep(s: Planning, c: Command, v: Id)
    requires v in Next(s, c).versions && LifecycleOk(s.versions) && (c.Approve? || c.Reactivate?) && Next(s, c) != s
    ensures var after := Next(s, c).versions[v];
            after.approval.Some? <==> (v in s.versions && s.versions[v].approval.Some?) || after.status == Approved
  {
    var approval := Next(s, c).versions[c.version].approval;
    assert Next(s, c).versions == MakeApproved(s.versions, c.version, approval) && approval.Some?;
    ApprovedVersions(s.versions, c.version, approval);
    assert ApprovalFits(s.versions[v]);
  }

  lemma UnapprovingStep(s: Planning, c: Command, v: Id)
    requires v in Next(s, c).versions && !c.Approve? && !c.Reactivate?
    ensures var after := Next(s, c).versions[v];
            if v in s.versions then after.approval == s.versions[v].approval
                                    && (after.status == Approved <==> s.versions[v].status == Approved)
            else after.approval.None? && after.status != Approved
  {
  }

  lemma PlansStay(s: Planning, c: Command)
    ensures s.plans.Keys <= Next(s, c).plans.Keys
  {
  }

  lemma VersionsStay(s: Planning, c: Command)
    ensures s.versions.Keys <= Next(s, c).versions.Keys
  {
  }

  /** A version carries approval metadata exactly when it was approved at some point. */
  lemma {:induction false} ApprovalIffEverApproved(commands: seq<Command>, v: Id)
    requires v in Run(commands).versions
    ensures Run(commands).versions[v].approval.Some? <==> EverApproved(commands, v)
    decreases |commands|
  {
    if commands != [] {
      var n := |commands| - 1;
      var before, s := Run(commands[..n]), Run(commands);
      ReachablePlanningOk(commands[..n]);
      ApprovalStep(before, commands[n], v);
      if v in before.versions { ApprovalIffEverApproved(commands[..n], v); }
      EverApprovedStep(commands, v);
    }
  }

  lemma EverApprovedStep(commands: seq<Command>, v: Id)
    requires commands != []
    ensures var most, s := commands[..|commands| - 1], Run(commands);
            EverApproved(commands, v) <==> EverApproved(most, v) || (v in s.versions && s.versions[v].status == Approved)
    ensures v !in Run(commands[..|commands| - 1]).versions ==> !EverApproved(commands[..|commands| - 1], v)
  {
    var n := |commands| - 1;
    var most := commands[..n];
    assert commands[..|commands|] == commands;
    forall k | 0 <= k <= n ensures ApprovedAt(commands, k, v) <==> ApprovedAt(most, k, v) {
      assert most[..k] == commands[..k];
    }
    if EverApproved(commands, v) {
      var k :| 0 <= k <= |commands| && ApprovedAt(commands, k, v);
      if k <= n { assert ApprovedAt(most, k, v); }
    }
    if EverApproved(most, v) {
      var k :| 0 <= k <= |most| && ApprovedAt(most, k, v);
      assert ApprovedAt(commands, k, v);
      VersionsStayOver(most, k, v);
    }
    if v in Run(commands).versions && Run(commands).versions[v].status == Approved {
      assert ApprovedAt(commands, |commands|, v);
    }
  }

  lemma {:induction false} VersionsStayOver(commands: seq<Command>, k: nat, v: Id)
    requires k <= |commands| && v in Run(commands[..k]).versions
    ensures v in Run(commands).versions
    decreases |commands|
  {
    if k == |commands| {
      assert commands[..k] == commands;
    } else {
      var n := |commands| - 1;
      assert commands[..n][..k] == commands[..k];
      VersionsStayOver(commands[..n], k, v);
      VersionsStay(Run(commands[..n]), commands[n]);
    }
  }

  lemma FirstApprovalStep(s: Planning, c: Command, v: Id)
    requires v in s.versions && s.versions[v].status != Approved && s.versions[v].approval.None?
    requires v in Next(s, c).versions && Next(s, c).versions[v].status == Approved
    ensures c.Approve? && c.version == v && s.versions[v].status == Candidate
    ensures var message := UserMessage(s.sources, s.messages, c.source);
            message.Some? && Presented(s.presentations, s.messages, v, message.value)
  {
  }

  /** A version that was never approved becomes approved only from candidate, by a user
      message whose conversation had been shown the version before. */
  lemma FirstApprovalNeedsPresentation(commands: seq<Command>, c: Command, v: Id)
    requires var s := Run(commands);
             && v in s.versions && !EverApproved(commands, v)
             && v in Next(s, c).versions && Next(s, c).versions[v].status == Approved
    ensures var s := Run(commands);
            && c.Approve? && c.version == v && s.versions[v].status == Candidate
            && var message := UserMessage(s.sources, s.messages, c.source);
               message.Some? && Presented(s.presentations, s.messages, v, message.value)
  {
    var s := Run(commands);
    ApprovalIffEverApproved(commands, v);
    assert s.versions[v].status != Approved by {
      ReachablePlanningOk(commands);
      assert ApprovalFits(s.versions[v]);
    }
    FirstApprovalStep(s, c, v);
  }

  // ----- one approved version, forever

  /** A plan's strategy is there to stay. */
  lemma StrategyStays(s: Planning, c: Command, plan: Id)
    requires plan in s.plans && s.plans[plan].Some?
    ensures plan in Next(s, c).plans && Next(s, c).plans[plan] == s.plans[plan]
  {
  }

  lemma {:induction false} StrategyStaysOver(commands: seq<Command>, k: nat, plan: Id)
    requires k <= |commands| && plan in Run(commands[..k]).plans && Run(commands[..k]).plans[plan].Some?
    ensures plan in Run(commands).plans && Run(commands).plans[plan] == Run(commands[..k]).plans[plan]
    decreases |commands|
  {
    if k == |commands| {
      assert commands[..k] == commands;
    } else {
      var n := |commands| - 1;
      assert commands[..n][..k] == commands[..k];
      StrategyStaysOver(commands[..n], k, plan);
      StrategyStays(Run(commands[..n]), commands[n], plan);
    }
  }

  /** Once a version of a plan is approved, the plan has exactly one approved version in
      every later state: the one its strategy was accepted from, with the same text. */
  lemma OneApprovedForever(commands: seq<Command>, k: nat, v: Id)
    requires k <= |commands| && ApprovedAt(commands, k, v)
    ensures var plan := Run(commands[..k]).versions[v].plan;
            var s := Run(commands);
            && plan in s.plans && s.plans[plan].Some? && s.plans[plan].value in s.strategies
            && var row := s.strategies[s.plans[plan].value];
               && row.acceptedFrom in s.versions
               && row.approach == s.versions[row.acceptedFrom].approach
               && row.rationale == s.versions[row.acceptedFrom].rationale
               && forall w :: IsOf(s.versions, w, plan, Approved) <==> w == row.acceptedFrom
  {
    var past, s := Run(commands[..k]), Run(commands);
    var plan := past.versions[v].plan;
    ReachablePlanningOk(commands[..k]);
    ReachablePlanningOk(commands);
    assert ApprovalFits(past.versions[v]) && HasStrategy(past.plans, past.versions, v);
    StrategyStaysOver(commands, k, plan);
    assert FollowsApproved(s.plans, s.versions, s.strategies, plan);
  }

  // ----- progress

  /** Progress rows exist for exactly the items of versions that were ever approved. */
  lemma ProgressOfEverApproved(commands: seq<Command>, i: Id)
    ensures var s := Run(commands);
            i in s.progress <==> i in s.items && EverApproved(commands, s.items[i].version)
  {
    var s := Run(commands);
    ReachablePlanningOk(commands);
    if i in s.items {
      ApprovalIffEverApproved(commands, s.items[i].version);
    }
  }

  /** Only an update of the item itself changes its recorded progress. */
  lemma ProgressStep(s: Planning, c: Command, i: Id)
    requires LifecycleOk(s.versions) && ProgressOk(s.versions, s.items, s.progress)
    requires i in s.progress && !(c.UpdateProgress? && c.item == i)
    ensures i in Next(s, c).progress && Next(s, c).progress[i] == s.progress[i]
  {
    if Next(s, c) != s {
      if c.Approve? {
        ApproveLeavesProgress(s.versions, s.items, s.progress, c.version, c.source.value, i);
      } else {
        OthersLeaveProgress(s, c, i);
      }
    }
  }

  lemma OthersLeaveProgress(s: Planning, c: Command, i: Id)
    requires !c.Approve? && i in s.progress && !(c.UpdateProgress? && c.item == i)
    ensures i in Next(s, c).progress && Next(s, c).progress[i] == s.progress[i]
  {
  }

  lemma ApproveLeavesProgress(versions: Versions, items: Items, progress: Progress, v: Id, source: Id, i: Id)
    requires LifecycleOk(versions) && ProgressOk(versions, items, progress)
    requires v in versions && versions[v].status == Candidate && i in progress
    ensures (progress + InitialProgress(items, v, source))[i] == progress[i]
  {
    assert ApprovalFits(versions[v]);
  }

  lemma ProgressStays(commands: seq<Command>, c: Command, i: Id)
    requires i in Run(commands).progress && !(c.UpdateProgress? && c.item == i)
    ensures i in Next(Run(commands), c).progress && Next(Run(commands), c).progress[i] == Run(commands).progress[i]
  {
    ReachablePlanningOk(commands);
    ProgressStep(Run(commands), c, i);
  }

  /** Candidates, approvals, rejections and reactivations preserve recorded progress. */
  lemma {:induction false} ProgressSurvives(commands: seq<Command>, k: nat, i: Id)
    requires k <= |commands| && i in Run(commands[..k]).progress
    requires forall j :: k <= j < |commands| ==> !(commands[j].UpdateProgress? && commands[j].item == i)
    ensures i in Run(commands).progress && Run(commands).progress[i] == Run(commands[..k]).progress[i]
    decreases |commands|
  {
    if k == |commands| {
      assert commands[..k] == commands;
    } else {
      var n := |commands| - 1;
      assert commands[..n][..k] == commands[..k];
      ProgressSurvives(commands[..n], k, i);
      ProgressStays(commands[..n], commands[n], i);
    }
  }

  // ----- the next action of a reachable plan

  /** The rows of a version's items with their progress, each item once, ordered by
      ordinal and then by identifier. */
  ghost predicate Lists(s: Planning, version: Id, rows: seq<Row>) {
    && (forall k :: 0 <= k < |rows| ==> rows[k].item in ItemsOf(s.items, version) && rows[k].item in s.progress
                                        && rows[k].status == s.progress[rows[k].item].status)
    && (forall j, k :: 0 <= j < k < |rows| ==> Before(s.items, rows[j].item, rows[k].item))
    && (forall i :: i in ItemsOf(s.items, version) && i in s.progress ==> HasItem(rows, i))
  }

  predicate Before(items: Items, i: Id, j: Id)
    requires i in items && j in items
  {
    items[i].ordinal < items[j].ordinal || (items[i].ordinal == items[j].ordinal && i < j)
  }

  /** The rows of an approved version of a reachable state form an acyclic plan. */
  lemma ListedIsPlan(commands: seq<Command>, version: Id, rows: seq<Row>)
    requires var s := Run(commands);
             version in s.versions && s.versions[version].status == Approved && Lists(s, version, rows)
    ensures version in Run(commands).deps && PlanRows(rows, Run(commands).deps[version])
    ensures forall i :: i in ItemsOf(Run(commands).items, version) ==> HasItem(rows, i)
  {
    var s := Run(commands);
    ReachablePlanningOk(commands);
    assert ApprovalFits(s.versions[version]) && GraphOk(s.items, version, s.deps[version]);
    forall e | e in s.deps[version] ensures HasItem(rows, e.0) && HasItem(rows, e.1) {
      assert e.0 in ItemsOf(s.items, version) && e.1 in ItemsOf(s.items, version);
    }
    assert forall j, k :: 0 <= j < k < |rows| ==> Before(s.items, rows[j].item, rows[k].item);
  }

  /** In every reachable state, an approved version whose items are all unstarted, in
      progress or done has a next action until all are done. */
  lemma ReachablePlanNeverDeadlocks(commands: seq<Command>, version: Id, rows: seq<Row>, r: Option<nat>)
    requires var s := Run(commands);
             && version in s.versions && s.versions[version].status == Approved && Lists(s, version, rows)
             && version in s.deps && IsNextAction(rows, s.deps[version], r)
    requires forall k :: 0 <= k < |rows| ==> !Stalled(rows[k].status)
    ensures PlanRows(rows, Run(commands).deps[version])
    ensures r.None? <==> forall k :: 0 <= k < |rows| ==> rows[k].status == Completed
  {
    ListedIsPlan(commands, version, rows);
    NoDeadlock(rows, Run(commands).deps[version], r);
  }

  // ----- driving a plan from its approval

  /** Marking the listed items done in the given order. */
  function Updates(rows: seq<Row>, order: seq<nat>, source: Id): seq<Command>
    requires forall i :: 0 <= i < |order| ==> order[i] < |rows|
  {
    seq(|order|, i requires 0 <= i < |order| => UpdateProgress(rows[order[i]].item, Completed, None, Some(source)))
  }

  /** An approved version of a plan, and a user message that can change its progress. */
  ghost predicate Drivable(s: Planning, version: Id, source: Id) {
    && version in s.versions && s.versions[version].status == Approved && s.versions[version].plan in s.plans
    && UserMessage(s.sources, s.messages, Some(source)).Some?
  }

  /** One update: the item becomes Completed, and nothing else changes. */
  lemma UpdateWrites(s: Planning, version: Id, item: Id, source: Id)
    requires Drivable(s, version, source) && item in ItemsOf(s.items, version) && item in s.progress
    requires s.progress[item].status != Completed
    ensures Next(s, UpdateProgress(item, Completed, None, Some(source)))
         == s.(progress := s.progress[item := ProgressRow(Completed, None, source)])
  {
  }

  lemma UpdateLists(s: Planning, version: Id, rows: seq<Row>, k: nat, row: ProgressRow)
    requires Lists(s, version, rows) && k < |rows|
    ensures Lists(s.(progress := s.progress[rows[k].item := row]), version, rows[k := Row(rows[k].item, row.status)])
  {
    var item := rows[k].item;
    var after := rows[k := Row(item, row.status)];
    forall j | 0 <= j < |rows| && j != k ensures rows[j].item != item {
      assert Before(s.items, rows[if j < k then j else k].item, rows[if j < k then k else j].item);
    }
    forall i | i in ItemsOf(s.items, version) && (i in s.progress || i == item) ensures HasItem(after, i) {
      var j :| 0 <= j < |rows| && rows[j].item == i;
      assert after[j].item == i;
    }
  }

  /** A fresh approval starts the version with every item unstarted. */
  lemma ApprovalStarts(s: Planning, approve: Command)
    requires LifecycleOk(s.versions) && approve.Approve? && Next(s, approve) != s
    ensures approve.source.Some? && Drivable(Next(s, approve), approve.version, approve.source.value)
    ensures Next(s, approve).items == s.items
    ensures Next(s, approve).progress == s.progress + InitialProgress(s.items, approve.version, approve.source.value)
  {
  }

  lemma StartsUnstarted(s: Planning, version: Id, source: Id, progress: Progress, rows: seq<Row>)
    requires s.progress == progress + InitialProgress(s.items, version, source) && Lists(s, version, rows)
    ensures Unstarted(rows)
  {
    var started := InitialProgress(s.items, version, source);
    forall k | 0 <= k < |rows| ensures rows[k].status == NotStarted {
      assert rows[k].item in started;
    }
  }

  lemma RunMore(commands: seq<Command>, more: seq<Command>, c: Command)
    ensures Run(commands + (more + [c])) == Next(Run(commands + more), c)
  {
    var all := commands + (more + [c]);
    assert all[..|all| - 1] == commands + more && all[|all| - 1] == c;
  }

  lemma AfterOneMore(rows: seq<Row>, order: seq<nat>, k: nat)
    requires k < |rows|
    ensures After(rows, order + [k]) == After(rows, order)[k := Row(rows[k].item, Completed)]
  {
  }

  /** The updates in `order` led from `s` to `t`. */
  ghost predicate DroveTo(s: Planning, t: Planning, version: Id, rows: seq<Row>, order: seq<nat>) {
    t == s.(progress := t.progress) && Lists(t, version, After(rows, order))
  }

  /** After the updates in `order`, the query lists the rows with those items done. */
  lemma {:induction false} DrivenRun(commands: seq<Command>, version: Id, rows: seq<Row>, order: seq<nat>, source: Id)
    requires Drivable(Run(commands), version, source) && Lists(Run(commands), version, rows)
    requires Unstarted(rows) && NoDuplicates(order) && forall i :: 0 <= i < |order| ==> order[i] < |rows|
    ensures DroveTo(Run(commands), Run(commands + Updates(rows, order, source)), version, rows, order)
    decreases |order|
  {
    if order == [] {
      assert commands + Updates(rows, [], source) == commands;
      assert After(rows, []) == rows;
    } else {
      var most, k := order[..|order| - 1], order[|order| - 1];
      assert order == most + [k] && k !in most;
      DrivenRun(commands, version, rows, most, source);
      DriveOne(commands, Run(commands), version, rows, most, k, source);
    }
  }

  lemma DriveOne(commands: seq<Command>, start: Planning, version: Id, rows: seq<Row>, order: seq<nat>, k: nat, source: Id)
    requires Unstarted(rows) && k < |rows| && k !in order && forall i :: 0 <= i < |order| ==> order[i] < |rows|
    requires Drivable(start, version, source)
    requires DroveTo(start, Run(commands + Updates(rows, order, source)), version, rows, order)
    ensures DroveTo(start, Run(commands + Updates(rows, order + [k], source)), version, rows, order + [k])
  {
    var s := Run(commands + Updates(rows, order, source));
    var item, after := rows[k].item, After(rows, order);
    assert Updates(rows, order + [k], source)
        == Updates(rows, order, source) + [UpdateProgress(item, Completed, None, Some(source))];
    RunMore(commands, Updates(rows, order, source), UpdateProgress(item, Completed, None, Some(source)));
    assert after[k] == rows[k];
    UpdateWrites(s, version, item, source);
    UpdateLists(s, version, after, k, ProgressRow(Completed, None, source));
    AfterOneMore(rows, order, k);
  }

  /** What the query finds once the rows in `order` are done. */
  ghost predicate DrivenTo(t: Planning, version: Id, rows: seq<Row>, order: seq<nat>) {
    && Lists(t, version, After(rows, order)) && version in t.deps
    && (|order| < |rows| ==> exists k :: IsNextAction(After(rows, order), t.deps[version], Some(k)))
    && (|order| == |rows| ==>
          && IsNextAction(After(rows, order), t.deps[version], None)
          && forall i :: i in ItemsOf(t.items, version) ==> i in t.progress && t.progress[i].status == Completed)
  }

  lemma DrivenThere(t: Planning, version: Id, rows: seq<Row>, order: seq<nat>)
    requires Lists(t, version, After(rows, order)) && version in t.deps && PlanRows(rows, t.deps[version])
    requires Unstarted(rows) && Driven(rows, t.deps[version], order)
    requires forall i :: i in ItemsOf(t.items, version) ==> HasItem(rows, i)
    ensures DrivenTo(t, version, rows, order)
  {
    var deps, after := t.deps[version], After(rows, order);
    DrivenPlanFinishes(rows, deps, order);
    if |order| < |rows| {
      var k :| Driven(rows, deps, order + [k]);
      assert (order + [k])[..|order|] == order && (order + [k])[|order|] == k;
    } else if |order| == |rows| {
      forall i | i in ItemsOf(t.items, version) ensures i in t.progress && t.progress[i].status == Completed {
        var k :| 0 <= k < |rows| && rows[k].item == i;
        assert after[k].item == i;
        assert after[k].status == Completed;
      }
    }
  }

  /** From a fresh approval, marking done whatever the query offers, again and again, never
      gets stuck and finishes all n items of the version in exactly n updates. */
  lemma ApprovedPlanFinishes(commands: seq<Command>, approve: Command, rows: seq<Row>, order: seq<nat>)
    requires approve.Approve? && Run(commands + [approve]) != Run(commands)
    requires var s := Run(commands + [approve]);
             && Lists(s, approve.version, rows) && approve.version in s.deps
             && Driven(rows, s.deps[approve.version], order)
    ensures approve.source.Some? && |order| <= |rows| && forall i :: 0 <= i < |order| ==> order[i] < |rows|
    ensures DrivenTo(Run(commands + [approve] + Updates(rows, order, approve.source.value)), approve.version, rows, order)
  {
    var version, approved := approve.version, commands + [approve];
    assert approved[..|commands|] == commands;
    ReachablePlanningOk(commands);
    ApprovalStarts(Run(commands), approve);
    StartsUnstarted(Run(approved), version, approve.source.value, Run(commands).progress, rows);
    ListedIsPlan(approved, version, rows);
    DrivenIsFresh(rows, Run(approved).deps[version], order);
    DrivenPlanFinishes(rows, Run(approved).deps[version], order);
    DrivenRun(approved, version, rows, order, approve.source.value);
    DrivenThere(Run(approved + Updates(rows, order, approve.source.value)), version, rows, order);
  }
}
