/** The planning services together with the ground: goals are linked to plans, and every
    candidate records the events it was based on. Dropping the ground leaves a run of
    the planning commands, so what is proved about those holds here too. */
module PlanningGrounded {
  import opened Basics
  import opened Graphs
  import opened PlanningGround
  import opened PlanningModel
  import PlanningRuns
  import PlanningService

  datatype Grounded = Grounded(planning: Planning, ground: Ground)

  /** What a candidate names beside its items: its basis, the tasks its items are linked
      to, the sources it was inferred from, and the source of the request, if it has one. */
  datatype Footing = Footing(basis: seq<Basis>, tasks: seq<Id>, evidence: seq<Id>, request: Option<Id>)

  datatype Action =
    | Observe(fact: Fact)
    | CreatePlan(plan: Id, goals: seq<(Id, GoalRole)>, source: Option<Id>)
    | LinkGoal(plan: Id, goal: Id, role: GoalRole, source: Option<Id>)
    | CreateCandidate(plan: Id, version: Id, draft: Draft, footing: Footing)
    | Other(command: Command)

  // ----- actions

  predicate Persisted(s: Planning, source: Option<Id>) {
    source.Some? && source.value in s.sources
  }

  predicate GoalsActive(entities: Entities, goals: seq<(Id, GoalRole)>) {
    forall i :: 0 <= i < |goals| ==> Active(entities, goals[i].0, GoalEntity)
  }

  predicate TasksActive(entities: Entities, tasks: seq<Id>) {
    forall i :: 0 <= i < |tasks| ==> Active(entities, tasks[i], TaskEntity)
  }

  predicate ListedOnce<T(==)>(s: seq<T>) {
    forall i, j :: 0 <= i < j < |s| ==> s[i] != s[j]
  }

  predicate EvidenceExists(sources: Sources, evidence: seq<Id>, request: Option<Id>) {
    && (forall i :: 0 <= i < |evidence| ==> evidence[i] in sources)
    && (request.Some? ==> request.value in sources)
  }

  function CreatePlanResult(s: Grounded, plan: Id, goals: seq<(Id, GoalRole)>, source: Option<Id>): Result<Grounded, Error> {
    if !GoalsWellFormed(goals) then Err(InvalidPayload)
    else if !Persisted(s.planning, source) then Err(NoSource)
    else if !GoalsActive(s.ground.entities, goals) then Err(NotFound)
    else if plan in s.planning.plans then Err(Conflict)
    else Ok(Grounded(s.planning.(plans := s.planning.plans[plan := None]),
                     s.ground.(links := LinkAll(s.ground.links, plan, goals))))
  }

  /** Linking again with the same role changes nothing. */
  function LinkGoalResult(s: Grounded, plan: Id, goal: Id, role: GoalRole, source: Option<Id>): Result<Grounded, Error> {
    var links := s.ground.links;
    if plan !in s.planning.plans || !Active(s.ground.entities, goal, GoalEntity) then Err(NotFound)
    else if (plan, goal) in links then (if links[(plan, goal)] != role then Err(Conflict) else Ok(s))
    else if role == Primary && HasPrimary(links, plan) then Err(SecondPrimary)
    else if !Persisted(s.planning, source) then Err(NoSource)
    else Ok(s.(ground := s.ground.(links := links[(plan, goal) := role])))
  }

  function ErrorOfBasis(problem: Problem): Error {
    if problem == NotActive then NotFound else InvalidBasis
  }

  /** The checks on the footing come between those on the payload and the plan and the
      search for a dependency cycle; evidence comes last. */
  ghost function CandidateResult(s: Grounded, plan: Id, version: Id, draft: Draft, footing: Footing): Result<Grounded, Error> {
    var drafted := CreateCandidateResult(s.planning, plan, version, draft);
    var verdict := BasisVerdict(s.ground, plan, footing.basis);
    if !ListedOnce(footing.basis) || !ListedOnce(footing.evidence) then Err(InvalidPayload)
    else if drafted.Err? && drafted.error != DependencyCycle then Err(drafted.error)
    else if !TasksActive(s.ground.entities, footing.tasks) then Err(NotFound)
    else if verdict.Some? then Err(ErrorOfBasis(verdict.value))
    else if drafted.Err? then Err(drafted.error)
    else if !EvidenceExists(s.planning.sources, footing.evidence, footing.request) then Err(NoEvidence)
    else Ok(Grounded(drafted.value, WithBasis(s.ground, plan, version, footing.basis)))
  }

  /** Plans and candidates are only created with their ground. */
  predicate NeedsGround(c: Command) {
    c.CreatePlan? || c.CreateCandidate?
  }

  ghost function OtherResult(s: Grounded, c: Command): Result<Grounded, Error> {
    if NeedsGround(c) then Err(InvalidPayload)
    else match PlanningModel.Execute(s.planning, c)
         case Ok(planning) => Ok(s.(planning := planning))
         case Err(e) => Err(e)
  }

  ghost function Execute(s: Grounded, a: Action): Result<Grounded, Error> {
    match a
    case Observe(fact) =>
      if Observed(s.ground, fact).None? then Err(Conflict) else Ok(s.(ground := Observed(s.ground, fact).value))
    case CreatePlan(plan, goals, source) => CreatePlanResult(s, plan, goals, source)
    case LinkGoal(plan, goal, role, source) => LinkGoalResult(s, plan, goal, role, source)
    case CreateCandidate(plan, version, draft, footing) => CandidateResult(s, plan, version, draft, footing)
    case Other(c) => OtherResult(s, c)
  }

  ghost function Next(s: Grounded, a: Action): Grounded {
    match Execute(s, a)
    case Ok(next) => next
    case Err(_) => s
  }

  const NOTHING := Grounded(EMPTY, NO_GROUND)

  ghost function Run(actions: seq<Action>): Grounded
    decreases |actions|
  {
    if actions == [] then NOTHING
    else Next(Run(actions[..|actions| - 1]), actions[|actions| - 1])
  }

  // ----- dropping the ground

  /** The planning command behind an accepted action, if it is one. */
  function CommandOf(a: Action): Option<Command> {
    match a
    case Observe(_) => None
    case LinkGoal(_, _, _, _) => None
    case CreatePlan(plan, _, _) => Some(Command.CreatePlan(plan))
    case CreateCandidate(plan, version, draft, _) => Some(Command.CreateCandidate(plan, version, draft))
    case Other(c) => Some(c)
  }

  lemma StepProjects(s: Grounded, a: Action)
    requires Execute(s, a).Ok?
    ensures var after := Execute(s, a).value.planning;
            if CommandOf(a).None? then after == s.planning else after == PlanningModel.Next(s.planning, CommandOf(a).value)
  {
  }

  /** Every grounded run is, without the ground, a run of the planning commands. */
  lemma {:induction false} RunProjects(actions: seq<Action>) returns (commands: seq<Command>)
    ensures PlanningModel.Run(commands) == Run(actions).planning
    decreases |actions|
  {
    if actions == [] {
      commands := [];
    } else {
      var before, a := Run(actions[..|actions| - 1]), actions[|actions| - 1];
      commands := RunProjects(actions[..|actions| - 1]);
      if Execute(before, a).Ok? && CommandOf(a).Some? {
        StepProjects(before, a);
        PlanningService.RunOne(commands, CommandOf(a).value);
        commands := commands + [CommandOf(a).value];
      } else if Execute(before, a).Ok? {
        StepProjects(before, a);
      }
    }
  }

  // ----- every run keeps the ground

  ghost predicate Founded(s: Grounded) {
    GroundOk(s.planning.plans.Keys, s.planning.versions.Keys, s.ground)
  }

  lemma OtherKeepsGround(s: Grounded, a: Action)
    requires Founded(s) && (a.Observe? || a.Other?) && Execute(s, a).Ok?
    ensures Founded(Execute(s, a).value)
  {
    var after := Execute(s, a).value;
    if a.Observe? {
      ObservedExtends(s.ground, a.fact);
    } else {
      PlanningRuns.VersionsStay(s.planning, a.command);
      PlanningRuns.PlansStay(s.planning, a.command);
    }
    ExtendKeeps(s.planning.plans.Keys, after.planning.plans.Keys, s.planning.versions.Keys, after.planning.versions.Keys,
                s.ground, after.ground);
  }

  lemma CreatePlanKeepsGround(s: Grounded, a: Action)
    requires Founded(s) && a.CreatePlan? && Execute(s, a).Ok?
    ensures Founded(Execute(s, a).value)
  {
    LinkAllKeeps(s.planning.plans.Keys, s.planning.versions.Keys, s.ground, a.plan, a.goals);
    assert s.planning.plans[a.plan := None].Keys == s.planning.plans.Keys + {a.plan};
  }

  lemma LinkGoalKeepsGround(s: Grounded, a: Action)
    requires Founded(s) && a.LinkGoal? && Execute(s, a).Ok?
    ensures Founded(Execute(s, a).value)
  {
    if Execute(s, a).value != s {
      LinkKeeps(s.planning.plans.Keys, s.planning.versions.Keys, s.ground, a.plan, a.goal, a.role);
    }
  }

  lemma CandidateKeepsGround(s: Grounded, a: Action)
    requires Founded(s) && a.CreateCandidate? && Execute(s, a).Ok?
    ensures Founded(Execute(s, a).value)
  {
    BasisKeeps(s.planning.plans.Keys, s.planning.versions.Keys, s.ground, a.plan, a.version, a.footing.basis);
    assert Execute(s, a).value.planning.versions.Keys == s.planning.versions.Keys + {a.version};
  }

  /** In every run: links join plans to goals, a plan has at most one primary goal, and every
      recorded basis is an event of an entity of the kind its role says. */
  lemma {:induction false} ReachableGroundOk(actions: seq<Action>)
    ensures var s := Run(actions); GroundOk(s.planning.plans.Keys, s.planning.versions.Keys, s.ground)
    decreases |actions|
  {
    if actions != [] {
      var before, a := Run(actions[..|actions| - 1]), actions[|actions| - 1];
      ReachableGroundOk(actions[..|actions| - 1]);
      if Execute(before, a).Ok? {
        match a {
          case CreatePlan(_, _, _) => CreatePlanKeepsGround(before, a);
          case LinkGoal(_, _, _, _) => LinkGoalKeepsGround(before, a);
          case CreateCandidate(_, _, _, _) => CandidateKeepsGround(before, a);
          case _ => OtherKeepsGround(before, a);
        }
      }
    }
  }

  /** An accepted candidate rests on every goal its plan was linked to: on the event it
      states, or on the goal's latest one. */
  lemma CandidateCoversItsGoals(actions: seq<Action>, a: Action, goal: Id)
    requires a.CreateCandidate? && Execute(Run(actions), a).Ok? && goal in LinkedGoals(Run(actions).ground.links, a.plan)
    ensures var s, after := Run(actions), Execute(Run(actions), a).value;
            exists b :: (a.version, b) in after.ground.basis && b.entity == goal && b.role == GoalBasis
                        && (b in a.footing.basis || forall e :: e in EventsOf(s.ground.events, goal) && e != b.event ==>
                              b.event in s.ground.events && Older(s.ground.events, e, b.event))
  {
    var g := Run(actions).ground;
    EveryGoalIsCovered(g, a.plan, a.footing.basis, goal);
    var b :| b in EffectiveBasis(g, a.plan, a.footing.basis) && b.entity == goal && b.role == GoalBasis
             && (b in a.footing.basis || (b.event in EventsOf(g.events, goal)
                 && forall e :: e in EventsOf(g.events, goal) && e != b.event ==> Older(g.events, e, b.event)));
    assert (a.version, b) in Execute(Run(actions), a).value.ground.basis;
  }
}
