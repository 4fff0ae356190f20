/** What plans and candidates rest on, in terms of the rows: which links and bases an accepted
    action adds, and exactly when it is refused. */
module PlanningFootings {
  import opened Basics
  import opened Graphs
  import opened PlanningGround
  import opened PlanningModel
  import opened PlanningGrounded

  // ----- entities

  /** There, of that kind, neither removed nor superseded. */
  predicate IsActive(g: Ground, entity: Id, kind: EntityKind) {
    entity in g.entities && g.entities[entity].kind == kind && !g.entities[entity].retired
  }

  /** The role a basis plays decides the kind its entity must have. */
  predicate PlaysRole(g: Ground, b: Basis) {
    match b.role
    case GoalBasis => IsActive(g, b.entity, GoalEntity)
    case TaskBasis => IsActive(g, b.entity, TaskEntity)
    case ProjectBasis => IsActive(g, b.entity, ProjectEntity)
    case DecisionBasis => IsActive(g, b.entity, DecisionEntity)
    case StrategyBasis => IsActive(g, b.entity, StrategyEntity)
  }

  predicate EventIsOf(g: Ground, event: Id, entity: Id) {
    event in g.events && g.events[event].entity == entity
  }

  /** The basis a candidate takes over from its plan: the latest event of a linked goal that
      the candidate does not state itself. */
  ghost predicate FromLink(g: Ground, plan: Id, stated: seq<Basis>, b: Basis) {
    && b.role == GoalBasis && (plan, b.entity) in g.links && EventIsOf(g, b.event, b.entity)
    && (forall i :: 0 <= i < |stated| ==> !(stated[i].role == GoalBasis && stated[i].entity == b.entity))
    && forall e: Id :: EventIsOf(g, e, b.entity) && e != b.event ==>
         g.events[e].at < g.events[b.event].at || (g.events[e].at == g.events[b.event].at && e < b.event)
  }

  lemma StatedMeans(stated: seq<Basis>, goal: Id)
    ensures Stated(stated, goal) <==> exists i :: 0 <= i < |stated| && stated[i].role == GoalBasis && stated[i].entity == goal
  {
  }

  lemma LinkedMeans(g: Ground, plan: Id, stated: seq<Basis>, goal: Id)
    ensures goal in ImplicitGoals(g.links, plan, stated) <==> (plan, goal) in g.links && !Stated(stated, goal)
  {
  }

  lemma OneLatest(events: Events, own: set<Id>, e: Id, f: Id)
    requires own <= events.Keys && e in own && f in own
    requires forall x :: x in own && x != e ==> Older(events, x, e)
    requires forall x :: x in own && x != f ==> Older(events, x, f)
    ensures e == f
  {
    assert e != f ==> Older(events, e, f) && Older(events, f, e);
  }

  /** The event recorded for a linked goal is the only one that comes after all its others. */
  lemma LatestIsFromLink(g: Ground, plan: Id, stated: seq<Basis>, b: Basis)
    ensures FromLink(g, plan, stated, b) <==>
              && b.entity in ImplicitGoals(g.links, plan, stated) && EventsOf(g.events, b.entity) != {}
              && b == GoalBasisOf(g.events, b.entity)
  {
    StatedMeans(stated, b.entity);
    LinkedMeans(g, plan, stated, b.entity);
    var own := EventsOf(g.events, b.entity);
    assert forall e :: e in own <==> EventIsOf(g, e, b.entity);
    if own != {} {
      var latest := LatestAmong(g.events, own);
      if FromLink(g, plan, stated, b) {
        OneLatest(g.events, own, b.event, latest);
      }
    }
  }

  /** An accepted candidate records the bases it states and the ones its plan's goals add. */
  lemma BasisOutcome(s: Grounded, plan: Id, version: Id, draft: Draft, footing: Footing)
    requires CandidateResult(s, plan, version, draft, footing).Ok?
    ensures var after := CandidateResult(s, plan, version, draft, footing).value;
            && after.ground == s.ground.(basis := after.ground.basis)
            && forall v: Id, b: Basis :: (v, b) in after.ground.basis <==>
                 (v, b) in s.ground.basis || (v == version && (b in footing.basis || FromLink(s.ground, plan, footing.basis, b)))
  {
    var g, after := s.ground, CandidateResult(s, plan, version, draft, footing).value;
    forall b: Basis
      ensures b in EffectiveBasis(g, plan, footing.basis) <==> b in footing.basis || FromLink(g, plan, footing.basis, b)
    {
      LatestIsFromLink(g, plan, footing.basis, b);
    }
  }

  lemma {:induction false} NoneRefused(g: Ground, stated: seq<Basis>)
    ensures FirstRefused(g, stated).None? <==>
              forall i :: 0 <= i < |stated| ==> PlaysRole(g, stated[i]) && EventIsOf(g, stated[i].event, stated[i].entity)
  {
    if stated != [] {
      NoneRefused(g, stated[..|stated| - 1]);
    }
  }

  /** Every linked goal that is not stated is active and has an event. */
  ghost predicate LinksHold(g: Ground, plan: Id, stated: seq<Basis>) {
    forall goal :: (plan, goal) in g.links && !Stated(stated, goal) ==>
      IsActive(g, goal, GoalEntity) && exists e :: EventIsOf(g, e, goal)
  }

  lemma VerdictMeans(g: Ground, plan: Id, stated: seq<Basis>)
    ensures BasisVerdict(g, plan, stated).None? <==>
              && LinksHold(g, plan, stated)
              && forall i :: 0 <= i < |stated| ==> PlaysRole(g, stated[i]) && EventIsOf(g, stated[i].event, stated[i].entity)
  {
    NoneRefused(g, stated);
    forall goal {
      LinkedMeans(g, plan, stated, goal);
    }
    forall goal ensures EventsOf(g.events, goal) == {} <==> !exists e :: EventIsOf(g, e, goal) {
      if EventsOf(g.events, goal) != {} {
        var e :| e in EventsOf(g.events, goal);
        assert EventIsOf(g, e, goal);
      }
      if e :| EventIsOf(g, e, goal) {
        assert e in EventsOf(g.events, goal);
      }
    }
  }

  /** Beyond what its payload needs, a candidate is accepted exactly if its tasks are active,
      its bases hold, and its evidence is stored. */
  lemma CandidateAcceptedIff(s: Grounded, plan: Id, version: Id, draft: Draft, footing: Footing)
    ensures CandidateResult(s, plan, version, draft, footing).Ok? <==>
              && CreateCandidateResult(s.planning, plan, version, draft).Ok?
              && (forall i, j :: 0 <= i < j < |footing.basis| ==> footing.basis[i] != footing.basis[j])
              && (forall i, j :: 0 <= i < j < |footing.evidence| ==> footing.evidence[i] != footing.evidence[j])
              && (forall t :: t in footing.tasks ==> IsActive(s.ground, t, TaskEntity))
              && LinksHold(s.ground, plan, footing.basis)
              && (forall b :: b in footing.basis ==> PlaysRole(s.ground, b) && EventIsOf(s.ground, b.event, b.entity))
              && (forall e :: e in footing.evidence ==> e in s.planning.sources)
              && (footing.request.Some? ==> footing.request.value in s.planning.sources)
  {
    VerdictMeans(s.ground, plan, footing.basis);
    assert forall i :: 0 <= i < |footing.tasks| ==> footing.tasks[i] in footing.tasks;
    assert forall i :: 0 <= i < |footing.basis| ==> footing.basis[i] in footing.basis;
    assert forall i :: 0 <= i < |footing.evidence| ==> footing.evidence[i] in footing.evidence;
  }

  // ----- which error a candidate is refused with

  /** The first stated basis that does not hold. */
  ghost predicate FaultAt(g: Ground, stated: seq<Basis>, i: nat) {
    && i < |stated| && !(PlaysRole(g, stated[i]) && EventIsOf(g, stated[i].event, stated[i].entity))
    && forall j :: 0 <= j < i ==> PlaysRole(g, stated[j]) && EventIsOf(g, stated[j].event, stated[j].entity)
  }

  lemma {:induction false} FaultIsRefused(g: Ground, stated: seq<Basis>, i: nat)
    requires FaultAt(g, stated, i)
    ensures FirstRefused(g, stated) == Some(if PlaysRole(g, stated[i]) then EventMismatch else NotActive)
    decreases |stated|
  {
    var n := |stated| - 1;
    if i < n {
      assert forall j :: 0 <= j <= i ==> stated[..n][j] == stated[j];
      FaultIsRefused(g, stated[..n], i);
    } else {
      NoneRefused(g, stated[..n]);
    }
  }

  /** A linked goal that is not stated has no event. */
  ghost predicate LacksEvent(g: Ground, plan: Id, stated: seq<Basis>) {
    exists goal :: (plan, goal) in g.links && !Stated(stated, goal) && !exists e :: EventIsOf(g, e, goal)
  }

  /** Missing events come first, then the stated bases in order, then goals no longer active. */
  lemma VerdictIs(g: Ground, plan: Id, stated: seq<Basis>)
    ensures LacksEvent(g, plan, stated) ==> BasisVerdict(g, plan, stated) == Some(NoEvent)
    ensures forall i: nat :: !LacksEvent(g, plan, stated) && FaultAt(g, stated, i) ==>
              BasisVerdict(g, plan, stated) == Some(if PlaysRole(g, stated[i]) then EventMismatch else NotActive)
    ensures !LacksEvent(g, plan, stated) && !LinksHold(g, plan, stated)
            && (forall i :: 0 <= i < |stated| ==> PlaysRole(g, stated[i]) && EventIsOf(g, stated[i].event, stated[i].entity)) ==>
              BasisVerdict(g, plan, stated) == Some(NotActive)
  {
    EventlessMeans(g, plan, stated);
    forall i: nat | FaultAt(g, stated, i)
      ensures FirstRefused(g, stated) == Some(if PlaysRole(g, stated[i]) then EventMismatch else NotActive)
    {
      FaultIsRefused(g, stated, i);
    }
    NoneRefused(g, stated);
    VerdictMeans(g, plan, stated);
  }

  lemma EventlessMeans(g: Ground, plan: Id, stated: seq<Basis>)
    ensures LacksEvent(g, plan, stated)
            <==> exists goal :: goal in ImplicitGoals(g.links, plan, stated) && EventsOf(g.events, goal) == {}
  {
    forall goal
      ensures goal in ImplicitGoals(g.links, plan, stated) <==> (plan, goal) in g.links && !Stated(stated, goal)
      ensures EventsOf(g.events, goal) == {} <==> !exists e :: EventIsOf(g, e, goal)
    {
      LinkedMeans(g, plan, stated, goal);
      assert forall e :: e in EventsOf(g.events, goal) <==> EventIsOf(g, e, goal);
    }
  }

  /** Once nothing is listed twice and the payload is in order, up to a cycle: a task that is not
      active, then the bases, then the cycle, then missing evidence. */
  lemma CandidateErrors(s: Grounded, plan: Id, version: Id, draft: Draft, footing: Footing)
    requires forall i, j :: 0 <= i < j < |footing.basis| ==> footing.basis[i] != footing.basis[j]
    requires forall i, j :: 0 <= i < j < |footing.evidence| ==> footing.evidence[i] != footing.evidence[j]
    requires var drafted := CreateCandidateResult(s.planning, plan, version, draft); drafted.Ok? || drafted == Err(DependencyCycle)
    ensures var g, stated, r := s.ground, footing.basis, CandidateResult(s, plan, version, draft, footing);
            if exists t :: t in footing.tasks && !IsActive(g, t, TaskEntity) then r == Err(NotFound)
            else if LacksEvent(g, plan, stated) then r == Err(InvalidBasis)
            else && (forall i: nat :: FaultAt(g, stated, i) ==> r == Err(if PlaysRole(g, stated[i]) then InvalidBasis else NotFound))
                 && ((forall i :: 0 <= i < |stated| ==> PlaysRole(g, stated[i]) && EventIsOf(g, stated[i].event, stated[i].entity)) ==>
                       if !LinksHold(g, plan, stated) then r == Err(NotFound)
                       else if CreateCandidateResult(s.planning, plan, version, draft).Err? then r == Err(DependencyCycle)
                       else r.Err? ==> r.error == NoEvidence)
  {
    VerdictIs(s.ground, plan, footing.basis);
    VerdictMeans(s.ground, plan, footing.basis);
    assert forall i :: 0 <= i < |footing.tasks| ==> footing.tasks[i] in footing.tasks;
  }

  /** Before that, whatever is listed twice, and then the payload's own error. */
  lemma CandidateErrorsFirst(s: Grounded, plan: Id, version: Id, draft: Draft, footing: Footing)
    ensures (exists i, j :: 0 <= i < j < |footing.basis| && footing.basis[i] == footing.basis[j])
            || (exists i, j :: 0 <= i < j < |footing.evidence| && footing.evidence[i] == footing.evidence[j]) ==>
              CandidateResult(s, plan, version, draft, footing) == Err(InvalidPayload)
    ensures var drafted := CreateCandidateResult(s.planning, plan, version, draft);
            && drafted.Err? && drafted.error != DependencyCycle
            && (forall i, j :: 0 <= i < j < |footing.basis| ==> footing.basis[i] != footing.basis[j])
            && (forall i, j :: 0 <= i < j < |footing.evidence| ==> footing.evidence[i] != footing.evidence[j]) ==>
              CandidateResult(s, plan, version, draft, footing) == Err(drafted.error)
  {
  }

  // ----- links

  /** A plan may be linked to an active goal, once, and to one primary goal. */
  lemma LinkGoalOutcome(s: Grounded, plan: Id, goal: Id, role: GoalRole, source: Option<Id>)
    ensures var r, links := LinkGoalResult(s, plan, goal, role, source), s.ground.links;
            && (r == Err(NotFound) <==> !(plan in s.planning.plans && IsActive(s.ground, goal, GoalEntity)))
            && (r == Err(Conflict) <==>
                  && plan in s.planning.plans && IsActive(s.ground, goal, GoalEntity)
                  && (plan, goal) in links && links[(plan, goal)] != role)
            && (r == Err(SecondPrimary) <==>
                  && plan in s.planning.plans && IsActive(s.ground, goal, GoalEntity) && (plan, goal) !in links
                  && role == Primary && exists other :: (plan, other) in links && links[(plan, other)] == Primary)
            && (r == Err(NoSource) <==>
                  && plan in s.planning.plans && IsActive(s.ground, goal, GoalEntity) && (plan, goal) !in links
                  && (role == Primary ==> forall other :: (plan, other) in links ==> links[(plan, other)] != Primary)
                  && !(source.Some? && source.value in s.planning.sources))
            && (r.Ok? && (plan, goal) in links ==> r.value == s)
            && (r.Ok? && (plan, goal) !in links ==> source.Some? && source.value in s.planning.sources)
            && (r.Ok? ==> && r.value.planning == s.planning && r.value.ground == s.ground.(links := r.value.ground.links)
                          && r.value.ground.links == links[(plan, goal) := role])
            && (r.Ok? || r.error in {NotFound, Conflict, SecondPrimary, NoSource})
  {
    var links := s.ground.links;
    assert (plan, goal) in links && links[(plan, goal)] == role ==> links[(plan, goal) := role] == links;
    if HasPrimary(links, plan) {
      var k :| k in links && k.0 == plan && links[k] == Primary;
      assert (plan, k.1) in links && links[(plan, k.1)] == Primary;
    }
  }

  /** A new plan is linked to the goals it is created with, in their roles, and to no other. */
  lemma CreatePlanOutcome(s: Grounded, plan: Id, goals: seq<(Id, GoalRole)>, source: Option<Id>)
    ensures var r := CreatePlanResult(s, plan, goals, source);
            && (r.Ok? <==>
                  && (forall i, j :: 0 <= i < j < |goals| ==>
                        goals[i].0 != goals[j].0 && (goals[i].1 == Supporting || goals[j].1 == Supporting))
                  && (forall i :: 0 <= i < |goals| ==> IsActive(s.ground, goals[i].0, GoalEntity))
                  && source.Some? && source.value in s.planning.sources && plan !in s.planning.plans)
            && (r.Ok? ==>
                  && r.value.planning == s.planning.(plans := s.planning.plans[plan := None])
                  && r.value.ground == s.ground.(links := r.value.ground.links)
                  && (forall i :: 0 <= i < |goals| ==>
                        (plan, goals[i].0) in r.value.ground.links && r.value.ground.links[(plan, goals[i].0)] == goals[i].1)
                  && (forall k :: k in s.ground.links && k.0 != plan ==>
                        k in r.value.ground.links && r.value.ground.links[k] == s.ground.links[k])
                  && (forall k :: k in r.value.ground.links && k !in s.ground.links ==>
                        k.0 == plan && exists i :: 0 <= i < |goals| && goals[i].0 == k.1))
  {
    assert forall i :: 0 <= i < |goals| ==> (Active(s.ground.entities, goals[i].0, GoalEntity) <==> IsActive(s.ground, goals[i].0, GoalEntity));
    if CreatePlanResult(s, plan, goals, source).Ok? {
      LinkAllMeans(s.ground.links, plan, goals);
    }
  }

  lemma CreatePlanRefused(s: Grounded, plan: Id, goals: seq<(Id, GoalRole)>, source: Option<Id>)
    ensures var r := CreatePlanResult(s, plan, goals, source);
            var fits := forall i, j :: 0 <= i < j < |goals| ==>
                          goals[i].0 != goals[j].0 && (goals[i].1 == Supporting || goals[j].1 == Supporting);
            var active := forall i :: 0 <= i < |goals| ==> IsActive(s.ground, goals[i].0, GoalEntity);
            var stored := source.Some? && source.value in s.planning.sources;
            && (r == Err(InvalidPayload) <==> !fits) && (r == Err(NoSource) <==> fits && !stored)
            && (r == Err(NotFound) <==> fits && stored && !active)
            && (r == Err(Conflict) <==> fits && stored && active && plan in s.planning.plans)
  {
    assert forall i :: 0 <= i < |goals| ==> (Active(s.ground.entities, goals[i].0, GoalEntity) <==> IsActive(s.ground, goals[i].0, GoalEntity));
  }

  lemma {:induction false} LinkAllMeans(links: Links, plan: Id, goals: seq<(Id, GoalRole)>)
    requires forall i, j :: 0 <= i < j < |goals| ==> goals[i].0 != goals[j].0
    ensures var after := LinkAll(links, plan, goals);
            && (forall i :: 0 <= i < |goals| ==> (plan, goals[i].0) in after && after[(plan, goals[i].0)] == goals[i].1)
            && (forall k :: k in links && k.0 != plan ==> k in after && after[k] == links[k])
            && (forall k :: k in after && k !in links ==> k.0 == plan && exists i :: 0 <= i < |goals| && goals[i].0 == k.1)
  {
    if goals != [] {
      var n := |goals| - 1;
      LinkAllMeans(links, plan, goals[..n]);
      forall k | k in LinkAll(links, plan, goals) && k !in links
        ensures k.0 == plan && exists i :: 0 <= i < |goals| && goals[i].0 == k.1
      {
        if k == (plan, goals[n].0) {
          assert goals[n].0 == k.1;
        } else {
          var i :| 0 <= i < |goals[..n]| && goals[..n][i].0 == k.1;
          assert goals[i].0 == k.1;
        }
      }
    }
  }
}
