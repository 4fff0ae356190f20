/** Plans and candidates with their ground as a service over its tables, around the
    planning service. */
module PlanningGroundedService {
  import opened Basics
  import opened Graphs
  import opened PlanningGround
  import opened PlanningModel
  import opened PlanningGrounded
  import opened PlanningOutcomes
  import opened PlanningFootings
  import PlanningService

  class GroundedPlanService {
    const core: PlanningService.Service
    var entities: Entities
    var events: Events
    var links: Links
    var basis: set<(Id, Basis)>

    function G(): Ground
      reads this
    {
      Ground(entities, events, links, basis)
    }

    function S(): Grounded
      reads this, core
    {
      Grounded(core.S(), G())
    }

    ghost predicate Valid()
      reads this, core
    {
      core.Valid()
    }

    constructor ()
      ensures Valid() && S() == NOTHING && fresh(core)
    {
      core := new PlanningService.Service();
      entities, events, links, basis := map[], map[], map[], {};
    }

    /** Links the goals of a new plan one after the other. */
    method LinkGoals(plan: Id, goals: seq<(Id, GoalRole)>)
      modifies this`links
      ensures links == LinkAll(old(links), plan, goals)
    {
      for i := 0 to |goals|
        invariant links == LinkAll(old(links), plan, goals[..i])
      {
        links := links[(plan, goals[i].0) := goals[i].1];
        assert goals[..i + 1][..i] == goals[..i];
      }
      assert goals[..|goals|] == goals;
    }

    method CreatePlan(plan: Id, goals: seq<(Id, GoalRole)>, source: Option<Id>) returns (r: Option<Error>)
      requires Valid()
      modifies this, core
      ensures Valid() && Served(old(S()), Action.CreatePlan(plan, goals, source), r, S())
    {
      if !GoalsWellFormed(goals) {
        return Some(InvalidPayload);
      }
      if !Persisted(core.S(), source) {
        return Some(NoSource);
      }
      if !GoalsActive(entities, goals) {
        return Some(NotFound);
      }
      r := core.CreateNewPlan(plan);
      if r.None? {
        LinkGoals(plan, goals);
      }
    }

    /** Attaches a goal to an existing plan. */
    method LinkGoal(plan: Id, goal: Id, role: GoalRole, source: Option<Id>) returns (r: Option<Error>)
      requires Valid()
      modifies this
      ensures Valid() && Served(old(S()), Action.LinkGoal(plan, goal, role, source), r, S())
    {
      if plan !in core.plans || !Active(entities, goal, GoalEntity) {
        return Some(NotFound);
      }
      if (plan, goal) in links {
        return if links[(plan, goal)] != role then Some(Conflict) else None;
      }
      if role == Primary && HasPrimary(links, plan) {
        return Some(SecondPrimary);
      }
      if !Persisted(core.S(), source) {
        return Some(NoSource);
      }
      links := links[(plan, goal) := role];
      return None;
    }

    /** Adds the latest event of every linked goal that is not stated. */
    method CompleteBasis(plan: Id, stated: seq<Basis>) returns (r: Result<set<Basis>, Problem>)
      ensures r.Err? <==> exists goal :: goal in ImplicitGoals(links, plan, stated) && EventsOf(events, goal) == {}
      ensures r.Err? ==> r.error == NoEvent
      ensures r.Ok? ==> r.value == set goal | goal in ImplicitGoals(links, plan, stated) :: GoalBasisOf(events, goal)
    {
      var implicit := ImplicitGoals(links, plan, stated);
      var left, added := implicit, {};
      while left != {}
        invariant left <= implicit && forall goal :: goal in implicit - left ==> EventsOf(events, goal) != {}
        invariant added == set goal | goal in implicit - left :: GoalBasisOf(events, goal)
        decreases left
      {
        var goal :| goal in left;
        if EventsOf(events, goal) == {} {
          return Err(NoEvent);
        }
        assert implicit - (left - {goal}) == (implicit - left) + {goal};
        left := left - {goal};
        added := added + {GoalBasisOf(events, goal)};
      }
      assert implicit - {} == implicit;
      return Ok(added);
    }

    /** The stated basis in order, up to the first one that is refused. */
    method CheckStated(stated: seq<Basis>) returns (r: Option<Problem>)
      ensures r == FirstRefused(G(), stated)
    {
      for i := 0 to |stated|
        invariant FirstRefused(G(), stated[..i]).None?
      {
        assert stated[..i + 1][..i] == stated[..i];
        r := Refused(G(), stated[i]);
        if r.Some? {
          RefusedEarly(G(), stated, i + 1);
          return r;
        }
      }
      assert stated[..|stated|] == stated;
      return None;
    }

    method CheckBasis(plan: Id, stated: seq<Basis>) returns (r: Result<set<Basis>, Problem>)
      ensures r.Err? ==> BasisVerdict(G(), plan, stated) == Some(r.error)
      ensures r.Ok? ==> BasisVerdict(G(), plan, stated).None? && r.value == EffectiveBasis(G(), plan, stated)
    {
      var completed := CompleteBasis(plan, stated);
      if completed.Err? {
        return Err(NoEvent);
      }
      var refused := CheckStated(stated);
      if refused.Some? {
        return Err(refused.value);
      }
      if exists goal :: goal in ImplicitGoals(links, plan, stated) && !Active(entities, goal, GoalEntity) {
        return Err(NotActive);
      }
      return Ok((set i | 0 <= i < |stated| :: stated[i]) + completed.value);
    }

    /** The checks on the footing: its tasks, its basis, and what is then recorded. */
    method CheckFooting(plan: Id, footing: Footing) returns (r: Result<set<Basis>, Error>)
      ensures r.Err? ==> r.error == if !TasksActive(entities, footing.tasks) then NotFound
                                    else if BasisVerdict(G(), plan, footing.basis).Some?
                                      then ErrorOfBasis(BasisVerdict(G(), plan, footing.basis).value) else r.error
      ensures r.Ok? <==> TasksActive(entities, footing.tasks) && BasisVerdict(G(), plan, footing.basis).None?
      ensures r.Ok? ==> r.value == EffectiveBasis(G(), plan, footing.basis)
    {
      if !TasksActive(entities, footing.tasks) {
        return Err(NotFound);
      }
      var checked := CheckBasis(plan, footing.basis);
      if checked.Err? {
        return Err(ErrorOfBasis(checked.error));
      }
      return Ok(checked.value);
    }

    /** All the checks on a candidate, in order, and the basis that is then recorded. */
    method RefuseCandidate(plan: Id, version: Id, draft: Draft, footing: Footing) returns (r: Result<set<Basis>, Error>)
      ensures r.Err? ==> CandidateResult(S(), plan, version, draft, footing) == Err(r.error)
      ensures r.Ok? ==> && CandidateResult(S(), plan, version, draft, footing).Ok?
                        && r.value == EffectiveBasis(G(), plan, footing.basis)
    {
      if !ListedOnce(footing.basis) || !ListedOnce(footing.evidence) {
        return Err(InvalidPayload);
      }
      var drafted := core.RefuseCandidate(plan, version, draft);
      if drafted.Some? && drafted.value != DependencyCycle {
        return Err(drafted.value);
      }
      r := CheckFooting(plan, footing);
      if r.Err? {
        return;
      }
      if drafted.Some? {
        return Err(drafted.value);
      }
      if !EvidenceExists(core.sources, footing.evidence, footing.request) {
        return Err(NoEvidence);
      }
    }

    method CreateCandidate(plan: Id, version: Id, draft: Draft, footing: Footing) returns (r: Option<Error>)
      requires Valid()
      modifies this, core
      ensures Valid() && Served(old(S()), Action.CreateCandidate(plan, version, draft, footing), r, S())
      ensures r.None? ==> StoresDraft(core.items, core.deps, version, draft)
      ensures r.None? ==> forall v: Id, b: Basis :: (v, b) in basis <==>
                (v, b) in old(basis) || (v == version && (b in footing.basis || FromLink(old(G()), plan, footing.basis, b)))
    {
      ghost var before := S();
      var effective := RefuseCandidate(plan, version, draft, footing);
      if effective.Err? {
        return Some(effective.error);
      }
      r := core.CreateCandidateVersion(plan, version, draft);
      basis := basis + (set b | b in effective.value :: (version, b));
      CandidateServed(before, plan, version, draft, footing, r, S());
    }
  }

  /** An accepted candidate is served by its two writes. */
  lemma CandidateServed(s: Grounded, plan: Id, version: Id, draft: Draft, footing: Footing, r: Option<Error>, after: Grounded)
    requires CandidateResult(s, plan, version, draft, footing).Ok?
    requires PlanningService.Served(s.planning, Command.CreateCandidate(plan, version, draft), r, after.planning)
    requires after.ground == s.ground.(basis := s.ground.basis + (set b | b in EffectiveBasis(s.ground, plan, footing.basis) :: (version, b)))
    ensures Served(s, Action.CreateCandidate(plan, version, draft, footing), r, after) && r.None?
    ensures forall v: Id, b: Basis :: (v, b) in after.ground.basis <==>
              (v, b) in s.ground.basis || (v == version && (b in footing.basis || FromLink(s.ground, plan, footing.basis, b)))
  {
    BasisOutcome(s, plan, version, draft, footing);
  }

  /** What a service action does, in terms of the specification. */
  ghost predicate Served(before: Grounded, a: Action, r: Option<Error>, after: Grounded) {
    after == PlanningGrounded.Next(before, a) && r == ErrorOf(PlanningGrounded.Execute(before, a))
  }

  lemma {:induction false} RefusedEarly(g: Ground, basis: seq<Basis>, n: nat)
    requires n <= |basis| && FirstRefused(g, basis[..n]).Some?
    ensures FirstRefused(g, basis) == FirstRefused(g, basis[..n])
    decreases |basis|
  {
    if n == |basis| {
      assert basis[..n] == basis;
    } else {
      var m := |basis| - 1;
      assert basis[..m][..n] == basis[..n];
      RefusedEarly(g, basis[..m], n);
    }
  }
}
