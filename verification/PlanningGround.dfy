/** What plans rest on: canonical entities and their events, the goals a plan is linked
    to, and the recorded basis of every plan version. */
module PlanningGround {
  import opened Basics
  import opened Graphs

  datatype EntityKind = TaskEntity | ProjectEntity | GoalEntity | DecisionEntity | StrategyEntity | OtherEntity

  /** `retired` stands for a removed or superseded entity. */
  datatype EntityRow = EntityRow(kind: EntityKind, retired: bool)

  datatype EventRow = EventRow(entity: Id, at: Time)

  datatype GoalRole = Primary | Supporting

  datatype BasisRole = GoalBasis | TaskBasis | ProjectBasis | DecisionBasis | StrategyBasis

  datatype Basis = Basis(entity: Id, event: Id, role: BasisRole)

  type Entities = map<Id, EntityRow>
  type Events = map<Id, EventRow>
  /** Which role a goal plays for a plan. */
  type Links = map<(Id, Id), GoalRole>

  /** `basis` pairs a plan version with what it was based on. */
  datatype Ground = Ground(entities: Entities, events: Events, links: Links, basis: set<(Id, Basis)>)

  /** Why a basis is refused. */
  datatype Problem = NotActive | EventMismatch | NoEvent

  const NO_GROUND := Ground(map[], map[], map[], {})

  function KindOf(role: BasisRole): EntityKind {
    match role
    case GoalBasis => GoalEntity
    case TaskBasis => TaskEntity
    case ProjectBasis => ProjectEntity
    case DecisionBasis => DecisionEntity
    case StrategyBasis => StrategyEntity
  }

  predicate Active(entities: Entities, entity: Id, kind: EntityKind) {
    entity in entities && entities[entity] == EntityRow(kind, false)
  }

  /** The basis event is one of the stated entity. */
  predicate Resolves(g: Ground, b: Basis) {
    b.entity in g.entities && b.event in g.events && g.events[b.event].entity == b.entity
  }

  predicate RoleFits(g: Ground, b: Basis)
    requires b.entity in g.entities
  {
    g.entities[b.entity].kind == KindOf(b.role)
  }

  /** What other services, and the log of the planning services, add to the ground. */
  datatype Fact =
    | NewEntity(entity: Id, kind: EntityKind)
    | EntityRetired(entity: Id)
    | NewEvent(event: Id, of: Id, at: Time)

  /** The ground with one more fact, unless an identifier is taken or unknown. */
  function Observed(g: Ground, fact: Fact): Option<Ground> {
    match fact
    case NewEntity(e, kind) => if e in g.entities then None else Some(g.(entities := g.entities[e := EntityRow(kind, false)]))
    case EntityRetired(e) =>
      if e !in g.entities then None else Some(g.(entities := g.entities[e := g.entities[e].(retired := true)]))
    case NewEvent(e, of, at) => if e in g.events then None else Some(g.(events := g.events[e := EventRow(of, at)]))
  }

  // ----- the latest event of an entity

  function EventsOf(events: Events, entity: Id): set<Id> {
    set e | e in events && events[e].entity == entity
  }

  predicate Older(events: Events, e: Id, f: Id)
    requires e in events && f in events
  {
    events[e].at < events[f].at || (events[e].at == events[f].at && e < f)
  }

  /** The last of the events by time and identifier. */
  function LatestAmong(events: Events, among: set<Id>): (latest: Id)
    requires among != {} && among <= events.Keys
    ensures latest in among && forall e :: e in among && e != latest ==> Older(events, e, latest)
  {
    var first := Least(among);
    if among == {first} then first
    else
      assert among - {first} != {} by { assert among == (among - {first}) + {first}; }
      var rest := LatestAmong(events, among - {first});
      assert forall e :: e in among ==> e == first || e == rest || (e in among - {first} && Older(events, e, rest));
      if Older(events, rest, first) then first else rest
  }

  // ----- the basis of a new version

  function LinkedGoals(links: Links, plan: Id): set<Id> {
    set k | k in links && k.0 == plan :: k.1
  }

  predicate Stated(basis: seq<Basis>, goal: Id) {
    exists i :: 0 <= i < |basis| && basis[i].role == GoalBasis && basis[i].entity == goal
  }

  /** The linked goals that the candidate does not state itself. */
  function ImplicitGoals(links: Links, plan: Id, basis: seq<Basis>): set<Id> {
    set goal | goal in LinkedGoals(links, plan) && !Stated(basis, goal)
  }

  function Refused(g: Ground, b: Basis): Option<Problem> {
    if !Active(g.entities, b.entity, KindOf(b.role)) then Some(NotActive)
    else if !Resolves(g, b) then Some(EventMismatch)
    else None
  }

  /** The first stated basis that is refused decides. */
  function FirstRefused(g: Ground, basis: seq<Basis>): Option<Problem> {
    if basis == [] then None
    else
      var earlier := FirstRefused(g, basis[..|basis| - 1]);
      if earlier.Some? then earlier else Refused(g, basis[|basis| - 1])
  }

  /** The checks on a candidate's basis: each implicit goal has an event, each stated
      basis holds, and each implicit goal is active. */
  function BasisVerdict(g: Ground, plan: Id, basis: seq<Basis>): Option<Problem> {
    if exists goal :: goal in ImplicitGoals(g.links, plan, basis) && EventsOf(g.events, goal) == {} then Some(NoEvent)
    else if FirstRefused(g, basis).Some? then FirstRefused(g, basis)
    else if exists goal :: goal in ImplicitGoals(g.links, plan, basis) && !Active(g.entities, goal, GoalEntity)
      then Some(NotActive)
    else None
  }

  function GoalBasisOf(events: Events, goal: Id): Basis
    requires EventsOf(events, goal) != {}
  {
    Basis(goal, LatestAmong(events, EventsOf(events, goal)), GoalBasis)
  }

  /** What is recorded: the stated basis, and the latest event of every implicit goal. */
  function EffectiveBasis(g: Ground, plan: Id, basis: seq<Basis>): set<Basis>
    requires BasisVerdict(g, plan, basis).None?
  {
    (set i | 0 <= i < |basis| :: basis[i])
    + (set goal | goal in ImplicitGoals(g.links, plan, basis) :: GoalBasisOf(g.events, goal))
  }

  function WithBasis(g: Ground, plan: Id, version: Id, basis: seq<Basis>): Ground
    requires BasisVerdict(g, plan, basis).None?
  {
    g.(basis := g.basis + (set b | b in EffectiveBasis(g, plan, basis) :: (version, b)))
  }

  // ----- linking goals

  /** A plan is created with its goals, all different, at most one of them primary. */
  predicate GoalsWellFormed(goals: seq<(Id, GoalRole)>) {
    forall i, j :: 0 <= i < j < |goals| ==>
      goals[i].0 != goals[j].0 && !(goals[i].1 == Primary && goals[j].1 == Primary)
  }

  function LinkAll(links: Links, plan: Id, goals: seq<(Id, GoalRole)>): Links {
    if goals == [] then links
    else
      var last := goals[|goals| - 1];
      LinkAll(links, plan, goals[..|goals| - 1])[(plan, last.0) := last.1]
  }

  predicate HasPrimary(links: Links, plan: Id) {
    exists k :: k in links && k.0 == plan && links[k] == Primary
  }

  // ----- what every run keeps

  predicate Grounded(g: Ground, b: Basis) {
    Resolves(g, b) && RoleFits(g, b)
  }

  predicate IsGoal(g: Ground, entity: Id) {
    entity in g.entities && g.entities[entity].kind == GoalEntity
  }

  predicate LinkStands(g: Ground, plans: set<Id>, k: (Id, Id)) {
    k.0 in plans && IsGoal(g, k.1)
  }

  predicate BasisStands(g: Ground, versions: set<Id>, r: (Id, Basis)) {
    r.0 in versions && Grounded(g, r.1)
  }

  ghost predicate OnePrimary(links: Links) {
    forall k, l :: k in links && l in links && k.0 == l.0 && links[k] == Primary == links[l] ==> k == l
  }

  /** Every link joins a plan to a goal, at most one of them primary, and every basis of a
      version names an event of an entity of the kind its role says. */
  ghost predicate GroundOk(plans: set<Id>, versions: set<Id>, g: Ground) {
    && (forall k {:trigger LinkStands(g, plans, k)} :: k in g.links ==> LinkStands(g, plans, k))
    && OnePrimary(g.links)
    && (forall r {:trigger BasisStands(g, versions, r)} :: r in g.basis ==> BasisStands(g, versions, r))
  }

  /** Entities keep their kind and events their entity. */
  ghost predicate Extends(g: Ground, g': Ground) {
    && (forall e :: e in g.entities ==> e in g'.entities && g'.entities[e].kind == g.entities[e].kind)
    && (forall e :: e in g.events ==> e in g'.events && g'.events[e] == g.events[e])
  }

  lemma ObservedExtends(g: Ground, fact: Fact)
    requires Observed(g, fact).Some?
    ensures var g' := Observed(g, fact).value; Extends(g, g') && g'.links == g.links && g'.basis == g.basis
  {
  }

  lemma ExtendKeeps(plans: set<Id>, plans': set<Id>, versions: set<Id>, versions': set<Id>, g: Ground, g': Ground)
    requires GroundOk(plans, versions, g) && plans <= plans' && versions <= versions'
    requires Extends(g, g') && g'.links == g.links && g'.basis == g.basis
    ensures GroundOk(plans', versions', g')
  {
    forall k | k in g.links ensures LinkStands(g', plans', k) {
      assert LinkStands(g, plans, k);
    }
    forall r | r in g.basis ensures BasisStands(g', versions', r) {
      assert BasisStands(g, versions, r);
    }
  }

  lemma LinkKeeps(plans: set<Id>, versions: set<Id>, g: Ground, plan: Id, goal: Id, role: GoalRole)
    requires GroundOk(plans, versions, g) && plan in plans && IsGoal(g, goal) && (plan, goal) !in g.links
    requires role == Primary ==> !HasPrimary(g.links, plan)
    ensures GroundOk(plans, versions, g.(links := g.links[(plan, goal) := role]))
  {
    var g' := g.(links := g.links[(plan, goal) := role]);
    forall k | k in g'.links ensures LinkStands(g', plans, k) {
      assert k in g.links ==> LinkStands(g, plans, k);
    }
    forall r | r in g'.basis ensures BasisStands(g', versions, r) {
      assert BasisStands(g, versions, r);
    }
  }

  /** Link `k` of the plan is the one the `i`-th goal asked for. */
  ghost predicate LinkedBy(links: Links, plan: Id, goals: seq<(Id, GoalRole)>, i: int, k: (Id, Id)) {
    && 0 <= i < |goals| && k == (plan, goals[i].0)
    && k in LinkAll(links, plan, goals) && LinkAll(links, plan, goals)[k] == goals[i].1
  }

  lemma LinkedByMore(links: Links, plan: Id, goals: seq<(Id, GoalRole)>, k: (Id, Id), i: int)
    requires goals != [] && LinkedBy(links, plan, goals[..|goals| - 1], i, k) && k != (plan, goals[|goals| - 1].0)
    ensures LinkedBy(links, plan, goals, i, k)
  {
    assert goals[..|goals| - 1][i] == goals[i];
  }

  /** Every link of a new plan is one that its goals asked for. */
  lemma {:induction false} LinkAllFrom(links: Links, plan: Id, goals: seq<(Id, GoalRole)>, k: (Id, Id)) returns (i: int)
    requires (forall l :: l in links ==> l.0 != plan) && k in LinkAll(links, plan, goals) && k.0 == plan
    ensures LinkedBy(links, plan, goals, i, k)
  {
    assert goals != [];
    var n := |goals| - 1;
    if k == (plan, goals[n].0) {
      i := n;
    } else {
      i := LinkAllFrom(links, plan, goals[..n], k);
      LinkedByMore(links, plan, goals, k, i);
    }
  }

  lemma LastLinkIsNew(links: Links, plan: Id, goals: seq<(Id, GoalRole)>, k: (Id, Id))
    requires (forall l :: l in links ==> l.0 != plan) && GoalsWellFormed(goals) && goals != []
    requires k in LinkAll(links, plan, goals[..|goals| - 1]) && k.0 == plan
    ensures k != (plan, goals[|goals| - 1].0)
    ensures !(LinkAll(links, plan, goals[..|goals| - 1])[k] == Primary && goals[|goals| - 1].1 == Primary)
  {
    var i := LinkAllFrom(links, plan, goals[..|goals| - 1], k);
    assert goals[..|goals| - 1][i] == goals[i];
  }

  lemma {:induction false} LinkAllKeeps(plans: set<Id>, versions: set<Id>, g: Ground, plan: Id, goals: seq<(Id, GoalRole)>)
    requires GroundOk(plans, versions, g) && plan !in plans && GoalsWellFormed(goals)
    requires forall i :: 0 <= i < |goals| ==> IsGoal(g, goals[i].0)
    ensures GroundOk(plans + {plan}, versions, g.(links := LinkAll(g.links, plan, goals)))
  {
    if goals == [] {
      ExtendKeeps(plans, plans + {plan}, versions, versions, g, g);
    } else {
      var n := |goals| - 1;
      var most := LinkAll(g.links, plan, goals[..n]);
      LinkAllKeeps(plans, versions, g, plan, goals[..n]);
      forall l | l in g.links ensures l.0 != plan {
        assert LinkStands(g, plans, l);
      }
      forall k | k in most && k.0 == plan ensures k != (plan, goals[n].0) && !(most[k] == Primary && goals[n].1 == Primary) {
        LastLinkIsNew(g.links, plan, goals, k);
      }
      LinkKeeps(plans + {plan}, versions, g.(links := most), plan, goals[n].0, goals[n].1);
    }
  }

  lemma {:induction false} StatedHolds(g: Ground, basis: seq<Basis>, i: nat)
    requires FirstRefused(g, basis).None? && i < |basis|
    ensures Grounded(g, basis[i])
  {
    var n := |basis| - 1;
    if i < n {
      StatedHolds(g, basis[..n], i);
    }
  }

  /** Everything recorded as the basis of a new version holds. */
  lemma EffectiveHolds(g: Ground, plan: Id, basis: seq<Basis>, b: Basis)
    requires BasisVerdict(g, plan, basis).None? && b in EffectiveBasis(g, plan, basis)
    ensures Grounded(g, b)
  {
    if i :| 0 <= i < |basis| && basis[i] == b {
      StatedHolds(g, basis, i);
    } else {
      var goal :| goal in ImplicitGoals(g.links, plan, basis) && b == GoalBasisOf(g.events, goal);
      assert Active(g.entities, goal, GoalEntity);
    }
  }

  lemma BasisKeeps(plans: set<Id>, versions: set<Id>, g: Ground, plan: Id, version: Id, basis: seq<Basis>)
    requires GroundOk(plans, versions, g) && BasisVerdict(g, plan, basis).None?
    ensures GroundOk(plans, versions + {version}, WithBasis(g, plan, version, basis))
  {
    var g' := WithBasis(g, plan, version, basis);
    forall k | k in g'.links ensures LinkStands(g', plans, k) {
      assert LinkStands(g, plans, k);
    }
    forall r | r in g'.basis ensures BasisStands(g', versions + {version}, r) {
      if r in g.basis {
        assert BasisStands(g, versions, r);
      } else {
        EffectiveHolds(g, plan, basis, r.1);
      }
    }
  }

  /** A new version rests on every goal its plan is linked to: on the event the candidate
      states, or on the latest one. */
  lemma EveryGoalIsCovered(g: Ground, plan: Id, basis: seq<Basis>, goal: Id)
    requires BasisVerdict(g, plan, basis).None? && goal in LinkedGoals(g.links, plan)
    ensures exists b :: b in EffectiveBasis(g, plan, basis) && b.entity == goal && b.role == GoalBasis
                        && (b in basis || (b.event in EventsOf(g.events, goal)
                            && forall e :: e in EventsOf(g.events, goal) && e != b.event ==> Older(g.events, e, b.event)))
  {
    if Stated(basis, goal) {
      var i :| 0 <= i < |basis| && basis[i].role == GoalBasis && basis[i].entity == goal;
      assert basis[i] in EffectiveBasis(g, plan, basis);
    } else {
      assert goal in ImplicitGoals(g.links, plan, basis);
      assert GoalBasisOf(g.events, goal) in EffectiveBasis(g, plan, basis);
    }
  }
}
