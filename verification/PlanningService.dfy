/** The planning service over its tables. Every action ends in the state its command
    gives, or leaves the tables unchanged and reports the same error. */
module PlanningService {
  import opened Basics
  import opened Graphs
  import opened PlanGraph
  import opened PlanNextAction
  import opened PlanningModel
  import opened PlanningLifecycle
  import opened PlanningSteps
  import opened PlanningOutcomes
  import PlanningOffers

  class Service {
    var plans: Plans
    var versions: Versions
    var items: Items
    var deps: map<Id, set<Edge>>
    var strategies: Strategies
    var progress: Progress
    var presentations: Presentations
    var messages: Messages
    var sources: Sources
    var rejections: set<(Id, Id)>
    /** The commands served so far, accepted or not. */
    ghost var log: seq<Command>

    function S(): Planning
      reads this
    {
      Planning(plans, versions, items, deps, strategies, progress, presentations, messages, sources, rejections)
    }

    /** The tables are as the run of the served commands left them. */
    ghost predicate Valid()
      reads this
    {
      S() == Run(log)
    }

    constructor ()
      ensures Valid() && S() == EMPTY && log == []
    {
      plans, versions, items, deps, strategies, progress := map[], map[], map[], map[], map[], map[];
      presentations, messages, sources, rejections, log := map[], map[], map[], {}, [];
    }

    // ----- the parts of an action

    /** Supersedes the plan's current version of the status, if there is one. */
    method RetireCurrent(plan: Id, status: VersionStatus)
      requires AtMostOne(versions, status)
      modifies `versions
      ensures versions == Retire(old(versions), plan, status)
    {
      ghost var before := versions;
      if v :| v in versions && IsOf(versions, v, plan, status) {
        versions := versions[v := versions[v].(status := Superseded)];
        RetireOnly(before, plan, status, v);
      } else {
        assert Retire(before, plan, status) == before;
      }
    }

    method PersistItems(draft: Draft, version: Id)
      requires forall i :: 0 <= i < |draft.items| ==> draft.items[i].handle in draft.ids
      modifies `items
      ensures items == old(items) + PersistedItems(draft, version, |draft.items|)
    {
      for i := 0 to |draft.items|
        invariant items == old(items) + PersistedItems(draft, version, i)
      {
        var item := draft.items[i];
        items := items[draft.ids[item.handle] := ItemRow(version, item.ordinal, item.title)];
      }
    }

    method InitializeProgress(version: Id, source: Id)
      modifies `progress
      ensures progress == old(progress) + InitialProgress(items, version, source)
    {
      var own := ItemsOf(items, version);
      var left := own;
      while left != {}
        invariant left <= own
        invariant progress == old(progress) + (map i | i in own - left :: ProgressRow(NotStarted, None, source))
        decreases left
      {
        var i :| i in left;
        progress := progress[i := ProgressRow(NotStarted, None, source)];
        left := left - {i};
      }
      assert own - {} == own;
    }

    method AcceptStrategy(v: Id, source: Id, newId: Id, now: Time)
      requires v in versions && versions[v].plan in plans
      modifies `plans, `strategies
      ensures S() == PlanningModel.AcceptStrategy(old(S()), v, source, newId, now)
    {
      var version := versions[v];
      var created := plans[version.plan].None?;
      var id := if created then newId else plans[version.plan].value;
      strategies := strategies[id := StrategyRow(version.approach, version.rationale, v, source, now)];
      if created {
        plans := plans[version.plan := Some(id)];
      } else {
        assert plans[version.plan := Some(id)] == plans;
      }
    }

    // ----- actions

    /** The checks on a candidate, in order: payload, plan, basis, dependency cycle. */
    method RefuseCandidate(plan: Id, version: Id, draft: Draft) returns (r: Option<Error>)
      ensures r == ErrorOf(CreateCandidateResult(S(), plan, version, draft))
    {
      var payload := ValidateGraphReferences(Handles(draft.items), Ordinals(draft.items), draft.dependencies);
      if payload != WellFormedPayload {
        return Some(InvalidPayload);
      }
      if version in versions || !Assigned(S(), draft) {
        return Some(Conflict);
      }
      if plan !in plans {
        return Some(NotFound);
      }
      if draft.basedOn.Some? && (draft.basedOn.value !in versions || versions[draft.basedOn.value].plan != plan) {
        return Some(InvalidBasis);
      }
      var verdict := AssertAcyclic(Elements(Handles(draft.items)), draft.dependencies);
      if verdict != Accepted {
        return Some(DependencyCycle);
      }
      return None;
    }

    method WriteCandidate(plan: Id, version: Id, draft: Draft)
      requires AtMostOne(versions, Candidate) && CreateCandidateResult(S(), plan, version, draft).Ok?
      modifies `versions, `items, `deps
      ensures S() == CreateCandidateResult(old(S()), plan, version, draft).value
    {
      EndpointsAssigned(draft);
      var number := LargestNumber(versions, VersionsOf(versions, plan)) + 1;
      RetireCurrent(plan, Candidate);
      versions := versions[version := VersionRow(plan, number, Candidate, draft.approach, draft.rationale, draft.basedOn, None)];
      PersistItems(draft, version);
      deps := deps[version := PersistedEdges(EdgeSet(draft.dependencies), draft.ids)];
    }

    /** The writes of an accepted candidate, and what they store. */
    method StoreCandidate(plan: Id, version: Id, draft: Draft)
      requires Valid() && CreateCandidateResult(S(), plan, version, draft).Ok?
      modifies `versions, `items, `deps
      ensures S() == CreateCandidateResult(old(S()), plan, version, draft).value
      ensures StoresDraft(items, deps, version, draft)
    {
      CurrentIsUnique(log);
      PlanningOffers.ReachableItemsHaveVersions(log);
      CandidateStored(S(), plan, version, draft);
      WriteCandidate(plan, version, draft);
    }

    /** The checks, and the writes if they pass. */
    method ServeCandidate(plan: Id, version: Id, draft: Draft) returns (r: Option<Error>)
      requires Valid()
      modifies `versions, `items, `deps
      ensures Served(old(S()), CreateCandidate(plan, version, draft), r, S())
      ensures r.None? ==> StoresDraft(items, deps, version, draft)
    {
      r := RefuseCandidate(plan, version, draft);
      if r.None? {
        StoreCandidate(plan, version, draft);
      }
    }

    method CreateCandidateVersion(plan: Id, version: Id, draft: Draft) returns (r: Option<Error>)
      requires Valid()
      modifies this
      ensures Valid() && log == old(log) + [CreateCandidate(plan, version, draft)]
      ensures Served(old(S()), CreateCandidate(plan, version, draft), r, S())
      ensures r.None? ==> StoresDraft(items, deps, version, draft)
    {
      RunOne(log, CreateCandidate(plan, version, draft));
      r := ServeCandidate(plan, version, draft);
      log := log + [CreateCandidate(plan, version, draft)];
    }

    /** Messages and their sources arrive through other services. */
    method ReceiveMessage(message: Id, row: MessageRow) returns (r: Option<Error>)
      requires Valid()
      modifies this
      ensures Valid() && log == old(log) + [AddMessage(message, row)] && Served(old(S()), AddMessage(message, row), r, S())
    {
      RunOne(log, AddMessage(message, row));
      log := log + [AddMessage(message, row)];
      if message in messages {
        return Some(Conflict);
      }
      messages := messages[message := row];
      return None;
    }

    method ReceiveSource(source: Id, row: SourceRow) returns (r: Option<Error>)
      requires Valid()
      modifies this
      ensures Valid() && log == old(log) + [AddSource(source, row)] && Served(old(S()), AddSource(source, row), r, S())
    {
      RunOne(log, AddSource(source, row));
      log := log + [AddSource(source, row)];
      if source in sources {
        return Some(Conflict);
      }
      sources := sources[source := row];
      return None;
    }

    method CreateNewPlan(plan: Id) returns (r: Option<Error>)
      requires Valid()
      modifies this
      ensures Valid() && log == old(log) + [CreatePlan(plan)] && Served(old(S()), CreatePlan(plan), r, S())
    {
      RunOne(log, CreatePlan(plan));
      log := log + [CreatePlan(plan)];
      if plan in plans {
        return Some(Conflict);
      }
      plans := plans[plan := None];
      return None;
    }

    method RecordVersionPresentation(version: Id, message: Id, now: Time) returns (r: Option<Error>)
      requires Valid()
      modifies this
      ensures Valid() && log == old(log) + [Present(version, message, now)]
      ensures Served(old(S()), Present(version, message, now), r, S())
    {
      RunOne(log, Present(version, message, now));
      log := log + [Present(version, message, now)];
      var decided := PresentResult(S(), version, message, now);
      if decided.Ok? {
        presentations := decided.value.presentations;
      }
      return ErrorOf(decided);
    }

    method RejectCandidateVersion(version: Id, source: Option<Id>) returns (r: Option<Error>)
      requires Valid()
      modifies this
      ensures Valid() && log == old(log) + [Reject(version, source)] && Served(old(S()), Reject(version, source), r, S())
    {
      RunOne(log, Reject(version, source));
      log := log + [Reject(version, source)];
      var decided := RejectResult(S(), version, source);
      if decided.Ok? {
        RejectTouches(S(), version, source);
        versions, rejections := decided.value.versions, decided.value.rejections;
      }
      return ErrorOf(decided);
    }

    /** Makes the version the plan's approved one, retiring the one before it. */
    method SwitchApproved(version: Id, approval: Option<Approval>)
      requires AtMostOne(versions, Approved) && version in versions && versions[version].status != Approved
      modifies `versions
      ensures versions == MakeApproved(old(versions), version, approval)
    {
      RetireCurrent(versions[version].plan, Approved);
      versions := versions[version := versions[version].(status := Approved, approval := approval)];
    }

    method WriteApproval(version: Id, source: Id, newId: Id, now: Time)
      requires AtMostOne(versions, Approved) && version in versions && versions[version].status == Candidate
      requires versions[version].plan in plans
      modifies `versions, `plans, `strategies, `progress
      ensures S() == Approving(old(S()), version, source, newId, now)
    {
      SwitchApproved(version, Some(Approval(source, now)));
      AcceptStrategy(version, source, newId, now);
      InitializeProgress(version, source);
    }

    method ApprovePlanVersion(version: Id, source: Option<Id>, newId: Id, now: Time) returns (r: Option<Error>)
      requires Valid()
      modifies this
      ensures Valid() && log == old(log) + [Approve(version, source, newId, now)]
      ensures Served(old(S()), Approve(version, source, newId, now), r, S())
      ensures r.None? && version in old(versions) && old(versions)[version].status == Candidate ==>
                && ShownTo(old(S()), source, version) && source.Some? && StartsProgress(old(S()), S(), version, source.value)
                && TakesApproval(old(versions), versions, version, Some(Approval(source.value, now)))
    {
      ApproveOutcome(S(), version, source, newId, now);
      RunOne(log, Approve(version, source, newId, now));
      CurrentIsUnique(log);
      log := log + [Approve(version, source, newId, now)];
      var decided := ApproveResult(S(), version, source, newId, now);
      if decided.Ok? && versions[version].status == Candidate {
        WriteApproval(version, source.value, newId, now);
      }
      return ErrorOf(decided);
    }

    method WriteReactivation(version: Id, source: Id, newId: Id, now: Time)
      requires AtMostOne(versions, Approved) && version in versions && versions[version].status == Superseded
      requires versions[version].plan in plans
      modifies `versions, `plans, `strategies
      ensures S() == Reactivating(old(S()), version, source, newId, now)
    {
      SwitchApproved(version, versions[version].approval);
      AcceptStrategy(version, source, newId, now);
    }

    method ReactivateHistoricalPlanVersion(version: Id, source: Option<Id>, newId: Id, now: Time) returns (r: Option<Error>)
      requires Valid()
      modifies this
      ensures Valid() && log == old(log) + [Reactivate(version, source, newId, now)]
      ensures Served(old(S()), Reactivate(version, source, newId, now), r, S())
      ensures r.None? && version in old(versions) && old(versions)[version].status == Superseded ==>
                && ShownTo(old(S()), source, version) && progress == old(progress)
                && TakesApproval(old(versions), versions, version, old(versions)[version].approval)
    {
      ReactivateOutcome(S(), version, source, newId, now);
      RunOne(log, Reactivate(version, source, newId, now));
      CurrentIsUnique(log);
      log := log + [Reactivate(version, source, newId, now)];
      var decided := ReactivateResult(S(), version, source, newId, now);
      if decided.Ok? && versions[version].status == Superseded {
        WriteReactivation(version, source.value, newId, now);
      }
      return ErrorOf(decided);
    }

    method UpdatePlanItemProgress(item: Id, status: ProgressStatus, note: Option<string>, source: Option<Id>)
      returns (r: Option<Error>)
      requires Valid()
      modifies this
      ensures Valid() && log == old(log) + [UpdateProgress(item, status, note, source)]
      ensures Served(old(S()), UpdateProgress(item, status, note, source), r, S())
      ensures r.None? ==> item in old(progress) && source.Some?
      ensures r.None? ==>
                progress == if old(progress)[item].status == status && old(progress)[item].source == source.value
                            then old(progress) else old(progress)[item := ProgressRow(status, note, source.value)]
    {
      RunOne(log, UpdateProgress(item, status, note, source));
      log := log + [UpdateProgress(item, status, note, source)];
      var decided := UpdateProgressResult(S(), item, status, note, source);
      if decided.Ok? {
        progress := decided.value.progress;
      }
      return ErrorOf(decided);
    }
  }

  /** What a service action does, in terms of its command. */
  ghost predicate Served(before: Planning, c: Command, r: Option<Error>, after: Planning) {
    after == Next(before, c) && r == ErrorOf(Execute(before, c))
  }

  /** Serving one more command. */
  lemma RunOne(log: seq<Command>, c: Command)
    ensures Run(log + [c]) == Next(Run(log), c)
  {
    assert (log + [c])[..|log|] == log;
  }

  lemma RejectTouches(s: Planning, version: Id, source: Option<Id>)
    requires RejectResult(s, version, source).Ok?
    ensures var after := RejectResult(s, version, source).value;
            after == s.(versions := after.versions, rejections := after.rejections)
  {
  }

  lemma CurrentIsUnique(log: seq<Command>)
    ensures AtMostOne(Run(log).versions, Candidate) && AtMostOne(Run(log).versions, Approved)
  {
    ReachablePlanningOk(log);
  }

  lemma RetireOnly(versions: Versions, plan: Id, status: VersionStatus, v: Id)
    requires AtMostOne(versions, status) && v in versions && IsOf(versions, v, plan, status)
    ensures Retire(versions, plan, status) == versions[v := versions[v].(status := Superseded)]
  {
  }
}
