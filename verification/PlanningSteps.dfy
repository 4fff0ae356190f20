/** Every planning action keeps the planning invariants. */
module PlanningSteps {
  import opened Basics
  import opened Graphs
  import opened PlanGraph
  import opened PlanningModel
  import opened PlanningLifecycle

  // ----- version writes that approve nothing

  /** Known versions keep everything but an unapproved status; new ones are unapproved. */
  ghost predicate Steady(plans: Plans, versions: Versions, after: Versions) {
    && (forall v :: v in versions ==> v in after && SameButStatus(versions[v], after[v]))
    && (forall v :: v in after && v !in versions ==>
          && after[v].approval.None? && after[v].status != Approved && after[v].plan in plans
          && (after[v].basedOn.Some? ==> after[v].basedOn.value in versions
                                         && versions[after[v].basedOn.value].plan == after[v].plan))
  }

  predicate SameButStatus(row: VersionRow, after: VersionRow) {
    row.(status := after.status) == after && (row.status == Approved <==> after.status == Approved)
  }

  lemma SteadyKeepsLineage(plans: Plans, versions: Versions, after: Versions)
    requires LineageOk(plans, versions) && Steady(plans, versions, after)
    ensures LineageOk(plans, after)
  {
    forall v | v in after ensures after[v].plan in plans && BasedInPlan(after, v) {
      if v in versions {
        assert SameButStatus(versions[v], after[v]) && BasedInPlan(versions, v);
      }
      if after[v].basedOn.Some? {
        var base := after[v].basedOn.value;
        assert SameButStatus(versions[base], after[base]);
      }
    }
  }

  lemma SteadyKeepsStrategies(plans: Plans, versions: Versions, after: Versions, strategies: Strategies)
    requires StrategiesOk(plans, versions, strategies) && Steady(plans, versions, after)
    ensures StrategiesOk(plans, after, strategies)
  {
    forall v | v in after ensures HasStrategy(plans, after, v) {
      if v in versions {
        assert HasStrategy(plans, versions, v) && SameButStatus(versions[v], after[v]);
      }
    }
    forall p | p in plans ensures FollowsApproved(plans, after, strategies, p) {
      assert FollowsApproved(plans, versions, strategies, p);
      if plans[p].Some? {
        var from := strategies[plans[p].value].acceptedFrom;
        assert SameButStatus(versions[from], after[from]);
      }
    }
    forall x | x in strategies ensures BelongsToPlan(plans, after, strategies, x) {
      assert BelongsToPlan(plans, versions, strategies, x);
      var from := strategies[x].acceptedFrom;
      assert SameButStatus(versions[from], after[from]);
    }
  }

  predicate Grows<K, V(==)>(m: map<K, V>, after: map<K, V>) {
    forall k :: k in m ==> k in after && after[k] == m[k]
  }

  /** More messages, sources and presentations leave confirmed approvals confirmed. */
  lemma ConfirmedStays(sources: Sources, messages: Messages, presentations: Presentations,
                       sources': Sources, messages': Messages, presentations': Presentations, v: Id, source: Id)
    requires Confirmed(sources, messages, presentations, v, source)
    requires Grows(messages, messages') && Grows(sources, sources') && Grows(presentations, presentations')
    ensures Confirmed(sources', messages', presentations', v, source)
  {
    var message := UserMessage(sources, messages, Some(source)).value;
    assert UserMessage(sources', messages', Some(source)) == Some(message);
    var k :| k in presentations && PresentedBy(presentations, messages, v, message, k);
    assert PresentedBy(presentations', messages', v, message, k);
  }

  lemma EvidenceStays(versions: Versions, sources: Sources, messages: Messages, presentations: Presentations,
                      sources': Sources, messages': Messages, presentations': Presentations)
    requires EvidenceOk(versions, sources, messages, presentations)
    requires Grows(messages, messages') && Grows(sources, sources') && Grows(presentations, presentations')
    requires PresentationsOk(versions, presentations', messages')
    ensures EvidenceOk(versions, sources', messages', presentations')
  {
    forall v | v in versions && versions[v].approval.Some?
      ensures Confirmed(sources', messages', presentations', v, versions[v].approval.value.source)
    {
      ConfirmedStays(sources, messages, presentations, sources', messages', presentations', v,
                     versions[v].approval.value.source);
    }
  }

  lemma SteadyKeepsEvidence(plans: Plans, versions: Versions, after: Versions, sources: Sources, messages: Messages,
                            presentations: Presentations)
    requires Steady(plans, versions, after) && EvidenceOk(versions, sources, messages, presentations)
    ensures EvidenceOk(after, sources, messages, presentations)
  {
    forall v | v in after && after[v].approval.Some?
      ensures Confirmed(sources, messages, presentations, v, after[v].approval.value.source)
    {
      assert v in versions && SameButStatus(versions[v], after[v]);
    }
    forall k | k in presentations ensures k.0 in after {
      assert k.0 in versions;
    }
  }

  lemma SteadyKeepsProgress(plans: Plans, versions: Versions, after: Versions, items: Items, progress: Progress)
    requires Steady(plans, versions, after) && ProgressOk(versions, items, progress)
    requires forall i :: i in items ==> items[i].version in versions
    ensures ProgressOk(after, items, progress)
  {
    forall i | i in items ensures after[items[i].version].approval == versions[items[i].version].approval {
      assert SameButStatus(versions[items[i].version], after[items[i].version]);
    }
  }

  // ----- the persisted item graph

  function HandleOf(ids: map<Id, Id>, x: Id): Id
    requires exists h :: h in ids && ids[h] == x
    requires forall h, k :: h in ids && k in ids && ids[h] == ids[k] ==> h == k
  {
    var h :| h in ids && ids[h] == x;
    h
  }

  /** Renaming items one to one keeps the dependency graph acyclic. */
  lemma PersistedIsAcyclic(dependencies: set<Edge>, ids: map<Id, Id>)
    requires forall e :: e in dependencies ==> e.0 in ids && e.1 in ids
    requires forall h, k :: h in ids && k in ids && ids[h] == ids[k] ==> h == k
    requires Acyclic(dependencies)
    ensures Acyclic(PersistedEdges(dependencies, ids))
  {
    var persisted := PersistedEdges(dependencies, ids);
    forall cycle | IsCycle(persisted, cycle) ensures false {
      forall i | 0 <= i < |cycle| ensures exists h :: h in ids && ids[h] == cycle[i] {
        var j := if i == 0 then 0 else i - 1;
        assert (cycle[j], cycle[j + 1]) in persisted;
        var e :| e in dependencies && (ids[e.0], ids[e.1]) == (cycle[j], cycle[j + 1]);
      }
      var original := seq(|cycle|, i requires 0 <= i < |cycle| => HandleOf(ids, cycle[i]));
      forall i | 0 <= i < |original| - 1 ensures (original[i], original[i + 1]) in dependencies {
        assert (cycle[i], cycle[i + 1]) in persisted;
        var e :| e in dependencies && (ids[e.0], ids[e.1]) == (cycle[i], cycle[i + 1]);
        assert original[i] == e.0 && original[i + 1] == e.1;
      }
      assert IsCycle(dependencies, original);
    }
  }

  lemma {:induction false} PersistedItemsAre(draft: Draft, version: Id, n: nat)
    requires n <= |draft.items| && forall i :: 0 <= i < |draft.items| ==> draft.items[i].handle in draft.ids
    ensures var items := PersistedItems(draft, version, n);
            && (forall x :: x in items ==> items[x].version == version && x in draft.ids.Values)
            && (forall i :: 0 <= i < n ==> draft.ids[draft.items[i].handle] in items)
  {
    if n > 0 {
      PersistedItemsAre(draft, version, n - 1);
      assert draft.items[n - 1].handle in draft.ids;
    }
  }

  lemma PersistedGraphOk(s: Planning, version: Id, draft: Draft)
    requires WellFormed(Handles(draft.items), Ordinals(draft.items), draft.dependencies) && Assigned(s, draft)
    requires Acyclic(EdgeSet(draft.dependencies))
    ensures forall e :: e in EdgeSet(draft.dependencies) ==> e.0 in draft.ids && e.1 in draft.ids
    ensures GraphOk(PersistedItems(draft, version, |draft.items|), version,
                    PersistedEdges(EdgeSet(draft.dependencies), draft.ids))
  {
    var dependencies, items := EdgeSet(draft.dependencies), PersistedItems(draft, version, |draft.items|);
    EndpointsAssigned(draft);
    PersistedIsAcyclic(dependencies, draft.ids);
    PersistedItemsAre(draft, version, |draft.items|);
    forall h | h in Elements(Handles(draft.items)) ensures h in draft.ids && draft.ids[h] in items {
      var i :| 0 <= i < |draft.items| && Handles(draft.items)[i] == h;
    }
  }

  // ----- creating a candidate

  /** What creating a candidate writes. */
  ghost predicate CandidateWritten(s: Planning, version: Id, row: VersionRow, items: Items, edges: set<Edge>, after: Planning) {
    && version !in s.versions && row.status == Candidate && row.approval.None? && row.plan in s.plans
    && row.number == LargestNumber(s.versions, VersionsOf(s.versions, row.plan)) + 1
    && (row.basedOn.Some? ==> row.basedOn.value in s.versions && s.versions[row.basedOn.value].plan == row.plan)
    && (forall i :: i in items ==> items[i].version == version && i !in s.items && i !in s.progress)
    && GraphOk(items, version, edges)
    && after == s.(versions := Retire(s.versions, row.plan, Candidate)[version := row], items := s.items + items,
                   deps := s.deps[version := edges])
  }

  lemma CandidateIsSteady(plans: Plans, versions: Versions, version: Id, row: VersionRow)
    requires version !in versions && row.status == Candidate && row.approval.None? && row.plan in plans
    requires row.basedOn.Some? ==> row.basedOn.value in versions && versions[row.basedOn.value].plan == row.plan
    ensures Steady(plans, versions, Retire(versions, row.plan, Candidate)[version := row])
  {
  }

  lemma CandidateKeepsItems(versions: Versions, after: Versions, items: Items, more: Items, deps: map<Id, set<Edge>>,
                            version: Id, edges: set<Edge>)
    requires ItemsOk(versions, items, deps) && version !in versions && GraphOk(more, version, edges)
    requires after.Keys == versions.Keys + {version}
    requires forall i :: i in more ==> more[i].version == version && i !in items
    ensures ItemsOk(after, items + more, deps[version := edges])
  {
    forall v | v in deps[version := edges] ensures v in after && GraphOk(items + more, v, deps[version := edges][v]) {
      if v == version {
        GraphStays(more, items + more, v, edges);
      } else {
        GraphStays(items, items + more, v, deps[v]);
      }
    }
  }

  lemma GraphStays(items: Items, after: Items, version: Id, edges: set<Edge>)
    requires GraphOk(items, version, edges) && Grows(items, after)
    ensures GraphOk(after, version, edges)
  {
  }

  lemma CandidateKeepsContent(plans: Plans, versions: Versions, after: Versions, items: Items, more: Items,
                              deps: map<Id, set<Edge>>, progress: Progress, version: Id, edges: set<Edge>)
    requires ContentOk(versions, items, deps, progress) && Steady(plans, versions, after) && version !in versions
    requires after.Keys == versions.Keys + {version} && after[version].approval.None? && GraphOk(more, version, edges)
    requires forall i :: i in more ==> more[i].version == version && i !in items && i !in progress
    ensures ContentOk(after, items + more, deps[version := edges], progress)
  {
    CandidateKeepsItems(versions, after, items, more, deps, version, edges);
    SteadyKeepsProgress(plans, versions, after, items, progress);
  }

  lemma CandidateKeepsTable(plans: Plans, versions: Versions, strategies: Strategies, version: Id, row: VersionRow)
    requires VersionsOk(plans, versions, strategies) && version !in versions
    requires row.status == Candidate && row.approval.None? && row.plan in plans
    requires row.number == LargestNumber(versions, VersionsOf(versions, row.plan)) + 1
    requires Steady(plans, versions, Retire(versions, row.plan, Candidate)[version := row])
    ensures VersionsOk(plans, Retire(versions, row.plan, Candidate)[version := row], strategies)
  {
    var after := Retire(versions, row.plan, Candidate)[version := row];
    CandidateKeepsVersions(versions, version, row);
    SteadyKeepsLineage(plans, versions, after);
    SteadyKeepsStrategies(plans, versions, after, strategies);
  }

  lemma CreateCandidateWrites(s: Planning, plan: Id, version: Id, draft: Draft)
    requires CreateCandidateResult(s, plan, version, draft).Ok?
    ensures var after := CreateCandidateResult(s, plan, version, draft).value;
            EndpointsAreAssigned(draft) && forall i :: 0 <= i < |draft.items| ==> draft.items[i].handle in draft.ids
    ensures var after := CreateCandidateResult(s, plan, version, draft).value;
            CandidateWritten(s, version, after.versions[version], PersistedItems(draft, version, |draft.items|),
                             PersistedEdges(EdgeSet(draft.dependencies), draft.ids), after)
    ensures var after := CreateCandidateResult(s, plan, version, draft).value;
            Steady(s.plans, s.versions, after.versions)
  {
    PersistedGraphOk(s, version, draft);
    PersistedItemsAre(draft, version, |draft.items|);
    CandidateIsSteady(s.plans, s.versions, version, CreateCandidateResult(s, plan, version, draft).value.versions[version]);
  }

  predicate EndpointsAreAssigned(draft: Draft) {
    forall e :: e in EdgeSet(draft.dependencies) ==> e.0 in draft.ids && e.1 in draft.ids
  }

  // ----- rejecting

  lemma RejectIsSteady(plans: Plans, versions: Versions, v: Id, after: Versions)
    requires v in versions && versions[v].status == Candidate
    requires after == versions[v := versions[v].(status := Rejected)]
    ensures Steady(plans, versions, after) && after.Keys == versions.Keys
  {
  }

  lemma RejectKeepsNumbers(versions: Versions, v: Id, after: Versions)
    requires LifecycleOk(versions) && NumbersOk(versions) && v in versions && versions[v].status == Candidate
    requires after == versions[v := versions[v].(status := Rejected)]
    ensures LifecycleOk(after) && NumbersOk(after)
  {
    assert ApprovalFits(versions[v]);
    InsertKeepsLifecycle(versions, v, after[v]);
    NumbersFrame(versions, after);
  }

  lemma RejectKeepsTable(plans: Plans, versions: Versions, strategies: Strategies, v: Id, after: Versions)
    requires VersionsOk(plans, versions, strategies) && v in versions && versions[v].status == Candidate
    requires after == versions[v := versions[v].(status := Rejected)]
    ensures VersionsOk(plans, after, strategies) && Steady(plans, versions, after)
  {
    RejectKeepsNumbers(versions, v, after);
    RejectIsSteady(plans, versions, v, after);
    SteadyKeepsLineage(plans, versions, after);
    SteadyKeepsStrategies(plans, versions, after, strategies);
  }

  lemma SteadyKeepsContent(plans: Plans, versions: Versions, after: Versions, items: Items, deps: map<Id, set<Edge>>,
                           progress: Progress)
    requires Steady(plans, versions, after) && after.Keys == versions.Keys && ContentOk(versions, items, deps, progress)
    ensures ContentOk(after, items, deps, progress)
  {
    SteadyKeepsProgress(plans, versions, after, items, progress);
  }

  // ----- approving

  /** What approving changes in the version table. */
  lemma ApprovedVersions(versions: Versions, v: Id, approval: Option<Approval>)
    requires v in versions
    ensures var after := MakeApproved(versions, v, approval);
            && after.Keys == versions.Keys
            && (forall w :: w in versions ==> after[w].plan == versions[w].plan && after[w].basedOn == versions[w].basedOn)
            && (forall w :: w in versions && w != v ==> after[w].approval == versions[w].approval)
            && after[v].approval == approval
  {
  }

  lemma MakeApprovedKeepsLineage(plans: Plans, after: Plans, versions: Versions, v: Id, approval: Option<Approval>)
    requires LineageOk(plans, versions) && v in versions && plans.Keys <= after.Keys
    ensures LineageOk(after, MakeApproved(versions, v, approval))
  {
    ApprovedVersions(versions, v, approval);
    forall w | w in versions ensures BasedInPlan(MakeApproved(versions, v, approval), w) {
      assert BasedInPlan(versions, w);
    }
  }

  /** Different plans have different strategies. */
  lemma StrategiesDiffer(plans: Plans, versions: Versions, strategies: Strategies, p: Id, plan: Id, id: Id)
    requires StrategiesOk(plans, versions, strategies)
    requires p != plan && p in plans && plan in plans && plans[p].Some?
    requires if plans[plan].Some? then id == plans[plan].value else id !in strategies
    ensures plans[p].value != id
  {
    assert FollowsApproved(plans, versions, strategies, p);
    if plans[plan].Some? {
      assert FollowsApproved(plans, versions, strategies, plan);
    }
  }

  /** The strategy follows the newly approved version. */
  lemma AcceptKeepsStrategies(plans: Plans, versions: Versions, strategies: Strategies, v: Id, approval: Option<Approval>,
                              id: Id, row: StrategyRow)
    requires LineageOk(plans, versions) && StrategiesOk(plans, versions, strategies)
    requires v in versions && versions[v].status != Approved && approval.Some?
    requires row.acceptedFrom == v && row.approach == versions[v].approach && row.rationale == versions[v].rationale
    requires var plan := versions[v].plan; if plans[plan].Some? then id == plans[plan].value else id !in strategies
    ensures StrategiesOk(plans[versions[v].plan := Some(id)], MakeApproved(versions, v, approval), strategies[id := row])
  {
    var plan, after := versions[v].plan, MakeApproved(versions, v, approval);
    var plans', strategies' := plans[plan := Some(id)], strategies[id := row];
    ApprovedVersions(versions, v, approval);
    forall w | w in after ensures HasStrategy(plans', after, w) {
      assert HasStrategy(plans, versions, w);
    }
    forall p | p in plans' ensures FollowsApproved(plans', after, strategies', p) {
      if p != plan && plans[p].Some? {
        assert FollowsApproved(plans, versions, strategies, p);
        StrategiesDiffer(plans, versions, strategies, p, plan, id);
        OthersStayAccepted(versions, v, approval, strategies[plans[p].value], p);
      }
    }
    forall x | x in strategies' ensures BelongsToPlan(plans', after, strategies', x) {
      if x != id {
        assert BelongsToPlan(plans, versions, strategies, x);
      }
    }
  }

  lemma OthersStayAccepted(versions: Versions, v: Id, approval: Option<Approval>, row: StrategyRow, p: Id)
    requires v in versions && versions[v].plan != p && TextOfApproved(versions, row, p)
    ensures TextOfApproved(MakeApproved(versions, v, approval), row, p)
  {
  }

  lemma ApproveKeepsProgress(versions: Versions, items: Items, progress: Progress, v: Id, approval: Approval, source: Id)
    requires ProgressOk(versions, items, progress) && v in versions && versions[v].approval.None?
    requires forall i :: i in items ==> items[i].version in versions
    ensures ProgressOk(MakeApproved(versions, v, Some(approval)), items, progress + InitialProgress(items, v, source))
    ensures progress.Keys !! InitialProgress(items, v, source).Keys
  {
    var after, more := MakeApproved(versions, v, Some(approval)), InitialProgress(items, v, source);
    ApprovedVersions(versions, v, Some(approval));
    forall i ensures i in progress + more <==> i in items && items[i].version in after && after[items[i].version].approval.Some? {
      assert i in more <==> i in items && items[i].version == v;
    }
  }

  lemma ApproveKeepsContent(versions: Versions, items: Items, deps: map<Id, set<Edge>>, progress: Progress, v: Id,
                            approval: Approval, source: Id)
    requires ContentOk(versions, items, deps, progress) && v in versions && versions[v].approval.None?
    ensures ContentOk(MakeApproved(versions, v, Some(approval)), items, deps, progress + InitialProgress(items, v, source))
  {
    ApprovedVersions(versions, v, Some(approval));
    ApproveKeepsProgress(versions, items, progress, v, approval, source);
  }

  lemma ReactivateKeepsContent(versions: Versions, items: Items, deps: map<Id, set<Edge>>, progress: Progress, v: Id)
    requires ContentOk(versions, items, deps, progress) && v in versions
    ensures ContentOk(MakeApproved(versions, v, versions[v].approval), items, deps, progress)
  {
    ApprovedVersions(versions, v, versions[v].approval);
  }

  lemma ApproveKeepsTable(plans: Plans, versions: Versions, strategies: Strategies, v: Id, approval: Option<Approval>,
                          id: Id, row: StrategyRow)
    requires VersionsOk(plans, versions, strategies)
    requires v in versions && versions[v].status != Approved && approval.Some?
    requires row.acceptedFrom == v && row.approach == versions[v].approach && row.rationale == versions[v].rationale
    requires var plan := versions[v].plan; if plans[plan].Some? then id == plans[plan].value else id !in strategies
    ensures VersionsOk(plans[versions[v].plan := Some(id)], MakeApproved(versions, v, approval), strategies[id := row])
  {
    ApprovedKeepsVersions(versions, v, approval);
    MakeApprovedKeepsLineage(plans, plans[versions[v].plan := Some(id)], versions, v, approval);
    AcceptKeepsStrategies(plans, versions, strategies, v, approval, id, row);
  }

  lemma MakeApprovedKeepsEvidence(versions: Versions, sources: Sources, messages: Messages, presentations: Presentations,
                                  v: Id, approval: Option<Approval>)
    requires EvidenceOk(versions, sources, messages, presentations) && v in versions && approval.Some?
    requires Confirmed(sources, messages, presentations, v, approval.value.source)
    ensures EvidenceOk(MakeApproved(versions, v, approval), sources, messages, presentations)
  {
    ApprovedVersions(versions, v, approval);
  }

  // ----- the environment and progress

  lemma PlanKeepsTable(plans: Plans, versions: Versions, strategies: Strategies, plan: Id)
    requires VersionsOk(plans, versions, strategies) && plan !in plans
    ensures VersionsOk(plans[plan := None], versions, strategies)
  {
    var plans' := plans[plan := None];
    forall v | v in versions ensures HasStrategy(plans', versions, v) {
      assert HasStrategy(plans, versions, v);
    }
    forall p | p in plans' ensures FollowsApproved(plans', versions, strategies, p) {
      if p != plan { assert FollowsApproved(plans, versions, strategies, p); }
    }
    forall x | x in strategies ensures BelongsToPlan(plans', versions, strategies, x) {
      assert BelongsToPlan(plans, versions, strategies, x);
    }
  }

  lemma PresentationKept(versions: Versions, presentations: Presentations, messages: Messages, k: (Id, Id), now: Time)
    requires PresentationsOk(versions, presentations, messages)
    requires k.0 in versions && k.1 in messages && messages[k.1].author == Assistant
    ensures PresentationsOk(versions, presentations[k := now], messages)
  {
  }

  lemma ProgressKept(versions: Versions, items: Items, progress: Progress, item: Id, row: ProgressRow)
    requires ProgressOk(versions, items, progress) && item in progress
    ensures ProgressOk(versions, items, progress[item := row])
  {
  }

  // ----- every command

  lemma VersionsKept(s: Planning, c: Command)
    requires VersionsOk(s.plans, s.versions, s.strategies)
    ensures VersionsOk(Next(s, c).plans, Next(s, c).versions, Next(s, c).strategies)
  {
    if Next(s, c) != s {
      if c.CreatePlan? {
        PlanKeepsTable(s.plans, s.versions, s.strategies, c.plan);
      } else if c.CreateCandidate? {
        CandidateTableKept(s, c);
      } else if c.Reject? {
        RejectTableKept(s, c);
      } else if c.Approve? {
        ApproveWrites(s, c);
      } else if c.Reactivate? {
        ReactivateWrites(s, c);
      } else {
        OtherTablesStay(s, c);
      }
    }
  }

  /** Messages, sources, presentations and progress leave plans, versions and strategies alone. */
  lemma OtherTablesStay(s: Planning, c: Command)
    requires c.AddMessage? || c.AddSource? || c.Present? || c.UpdateProgress?
    ensures var after := Next(s, c);
            && after.plans == s.plans && after.versions == s.versions && after.strategies == s.strategies
            && after.items == s.items && after.deps == s.deps
  {
  }

  lemma RejectTableKept(s: Planning, c: Command)
    requires VersionsOk(s.plans, s.versions, s.strategies) && c.Reject? && Next(s, c) != s
    ensures VersionsOk(Next(s, c).plans, Next(s, c).versions, Next(s, c).strategies)
  {
    RejectKeepsTable(s.plans, s.versions, s.strategies, c.version, Next(s, c).versions);
  }

  lemma CandidateTableKept(s: Planning, c: Command)
    requires VersionsOk(s.plans, s.versions, s.strategies) && c.CreateCandidate? && Next(s, c) != s
    ensures VersionsOk(Next(s, c).plans, Next(s, c).versions, Next(s, c).strategies)
  {
    CreateCandidateWrites(s, c.plan, c.version, c.draft);
    CandidateKeepsTable(s.plans, s.versions, s.strategies, c.version, Next(s, c).versions[c.version]);
  }

  lemma ApproveWrites(s: Planning, c: Command)
    requires VersionsOk(s.plans, s.versions, s.strategies) && c.Approve? && Next(s, c) != s
    ensures VersionsOk(Next(s, c).plans, Next(s, c).versions, Next(s, c).strategies)
  {
    var v, after := c.version, Next(s, c);
    var id := after.plans[s.versions[v].plan].value;
    ApproveKeepsTable(s.plans, s.versions, s.strategies, v, Some(Approval(c.source.value, c.now)), id, after.strategies[id]);
  }

  lemma ReactivateWrites(s: Planning, c: Command)
    requires VersionsOk(s.plans, s.versions, s.strategies) && c.Reactivate? && Next(s, c) != s
    ensures VersionsOk(Next(s, c).plans, Next(s, c).versions, Next(s, c).strategies)
  {
    var v, after := c.version, Next(s, c);
    var id := after.plans[s.versions[v].plan].value;
    ApproveKeepsTable(s.plans, s.versions, s.strategies, v, s.versions[v].approval, id, after.strategies[id]);
  }

  lemma CandidateContentKept(s: Planning, c: Command)
    requires ContentOk(s.versions, s.items, s.deps, s.progress) && c.CreateCandidate? && Next(s, c) != s
    ensures ContentOk(Next(s, c).versions, Next(s, c).items, Next(s, c).deps, Next(s, c).progress)
  {
    var version, draft := c.version, c.draft;
    CreateCandidateWrites(s, c.plan, version, draft);
    CandidateKeepsContent(s.plans, s.versions, Next(s, c).versions, s.items, PersistedItems(draft, version, |draft.items|),
                          s.deps, s.progress, version, PersistedEdges(EdgeSet(draft.dependencies), draft.ids));
  }

  lemma RejectWrites(s: Planning, c: Command)
    requires c.Reject? && Next(s, c) != s
    ensures c.version in s.versions && s.versions[c.version].status == Candidate
    ensures Next(s, c) == s.(versions := s.versions[c.version := s.versions[c.version].(status := Rejected)],
                             rejections := Next(s, c).rejections)
  {
  }

  lemma RejectContentKept(s: Planning, c: Command)
    requires ContentOk(s.versions, s.items, s.deps, s.progress) && c.Reject? && Next(s, c) != s
    ensures ContentOk(Next(s, c).versions, Next(s, c).items, Next(s, c).deps, Next(s, c).progress)
  {
    RejectWrites(s, c);
    RejectIsSteady(s.plans, s.versions, c.version, Next(s, c).versions);
    SteadyKeepsContent(s.plans, s.versions, Next(s, c).versions, s.items, s.deps, s.progress);
  }

  lemma ApproveContentKept(s: Planning, c: Command)
    requires LifecycleOk(s.versions) && ContentOk(s.versions, s.items, s.deps, s.progress)
    requires c.Approve? && Next(s, c) != s
    ensures ContentOk(Next(s, c).versions, Next(s, c).items, Next(s, c).deps, Next(s, c).progress)
  {
    assert s.versions[c.version].approval.None?;
    ApproveKeepsContent(s.versions, s.items, s.deps, s.progress, c.version, Approval(c.source.value, c.now), c.source.value);
  }

  lemma ReactivateContentKept(s: Planning, c: Command)
    requires ContentOk(s.versions, s.items, s.deps, s.progress) && c.Reactivate? && Next(s, c) != s
    ensures ContentOk(Next(s, c).versions, Next(s, c).items, Next(s, c).deps, Next(s, c).progress)
  {
    ReactivateKeepsContent(s.versions, s.items, s.deps, s.progress, c.version);
  }

  lemma UpdateContentKept(s: Planning, c: Command)
    requires ContentOk(s.versions, s.items, s.deps, s.progress) && c.UpdateProgress? && Next(s, c) != s
    ensures ContentOk(Next(s, c).versions, Next(s, c).items, Next(s, c).deps, Next(s, c).progress)
  {
    ProgressKept(s.versions, s.items, s.progress, c.item, Next(s, c).progress[c.item]);
  }

  lemma ContentKept(s: Planning, c: Command)
    requires LifecycleOk(s.versions) && ContentOk(s.versions, s.items, s.deps, s.progress)
    ensures ContentOk(Next(s, c).versions, Next(s, c).items, Next(s, c).deps, Next(s, c).progress)
  {
    if Next(s, c) != s {
      if c.CreateCandidate? {
        CandidateContentKept(s, c);
      } else if c.Reject? {
        RejectContentKept(s, c);
      } else if c.Approve? {
        ApproveContentKept(s, c);
      } else if c.Reactivate? {
        ReactivateContentKept(s, c);
      } else if c.UpdateProgress? {
        UpdateContentKept(s, c);
      } else if !c.CreatePlan? {
        OtherTablesStay(s, c);
      }
    }
  }

  lemma StatusEvidenceKept(s: Planning, c: Command)
    requires EvidenceOk(s.versions, s.sources, s.messages, s.presentations)
    requires (c.CreateCandidate? || c.Reject?) && Next(s, c) != s
    ensures EvidenceOk(Next(s, c).versions, Next(s, c).sources, Next(s, c).messages, Next(s, c).presentations)
  {
    if c.CreateCandidate? {
      CreateCandidateWrites(s, c.plan, c.version, c.draft);
    }
    SteadyKeepsEvidence(s.plans, s.versions, Next(s, c).versions, s.sources, s.messages, s.presentations);
  }

  lemma ApprovalEvidenceKept(s: Planning, c: Command)
    requires EvidenceOk(s.versions, s.sources, s.messages, s.presentations)
    requires (c.Approve? || c.Reactivate?) && Next(s, c) != s
    ensures EvidenceOk(Next(s, c).versions, Next(s, c).sources, Next(s, c).messages, Next(s, c).presentations)
  {
    var approval := if c.Approve? then Some(Approval(c.source.value, c.now)) else s.versions[c.version].approval;
    MakeApprovedKeepsEvidence(s.versions, s.sources, s.messages, s.presentations, c.version, approval);
  }

  lemma EvidenceKept(s: Planning, c: Command)
    requires EvidenceOk(s.versions, s.sources, s.messages, s.presentations)
    ensures EvidenceOk(Next(s, c).versions, Next(s, c).sources, Next(s, c).messages, Next(s, c).presentations)
  {
    var after := Next(s, c);
    if after != s {
      if c.CreateCandidate? || c.Reject? {
        StatusEvidenceKept(s, c);
      } else if c.Approve? || c.Reactivate? {
        ApprovalEvidenceKept(s, c);
      } else {
        if c.Present? {
          PresentationKept(s.versions, s.presentations, s.messages, (c.version, c.message), c.now);
        }
        EvidenceStays(s.versions, s.sources, s.messages, s.presentations, after.sources, after.messages, after.presentations);
      }
    }
  }

  /** Every reachable planning state keeps the planning invariants. */
  lemma {:induction false} ReachablePlanningOk(commands: seq<Command>)
    ensures PlanningOk(Run(commands))
    decreases |commands|
  {
    if commands != [] {
      var before, c := Run(commands[..|commands| - 1]), commands[|commands| - 1];
      ReachablePlanningOk(commands[..|commands| - 1]);
      VersionsKept(before, c);
      ContentKept(before, c);
      EvidenceKept(before, c);
    }
  }
}
