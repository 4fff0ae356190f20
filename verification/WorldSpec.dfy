/** The write services as functions from World State to World State. Each action is
    one transaction: it either completes or leaves the state unchanged. */
module WorldSpec {
  import opened Basics
  import opened Graphs
  import opened WorldModel

  datatype Command =
    | CreateRow(kind: Kind, id: Id, fields: Row, criteria: map<Id, Value>, prerequisites: seq<Id>, now: Time)
    | UpdateRow(id: Id, kind: Kind, patch: Row, now: Time)
    | UpdateCriterion(goal: Id, criterion: Id, patch: Row, source: Value, now: Time)
    | CreateDecision(id: Id, status: DecisionStatus, supersedes: Option<Id>, now: Time)
    | RevokeDecision(id: Id, now: Time)
    | AddDependency(prerequisite: Id, dependent: Id, now: Time)
    | Relate(id: Id, now: Time)
    | Undo(entity: Option<Id>, now: Time)

  // ----- creation

  function CriterionColumns(criteria: map<Id, Value>): Row {
    map c, part | c in criteria && part in {CDescription, CStatus, CConfidence, CSummary, CSource} ::
      Criterion(c, part) := match part
                            case CDescription => criteria[c]
                            case CStatus => Text("UNKNOWN")
                            case _ => Null
  }

  function NewRow(kind: Kind, fields: Row, criteria: map<Id, Value>, now: Time): Row {
    CriterionColumns(criteria) + fields
    + map[CompletedAt := if Status in fields && fields[Status] == DoneStatus(kind) then At(now) else Null]
  }

  function IncomingEdges(prerequisites: seq<Id>, dependent: Id): set<Edge> {
    set p | p in prerequisites :: (p, dependent)
  }

  ghost predicate AllColumns(kind: Kind, fields: Row) {
    forall f :: HasColumn(kind, f) ==> f in fields
  }

  ghost function CreateRowResult(w: World, kind: Kind, id: Id, fields: Row, criteria: map<Id, Value>,
                           prerequisites: seq<Id>, now: Time): Result<World, Error>
  {
    if kind == Decision || id in w.entities || !PatchTyped(kind, fields)
       || !AllColumns(kind, fields)
       || (!fields[DateType].Null? && fields[Date].Null?)
       || (kind != Task && prerequisites != []) || (kind != Goal && criteria != map[]) then Err(InvalidValue)
    else if fields[Parent].Ref? && !ActiveRow(w, fields[Parent].id, kind) then Err(NotFound)
    else if PrimaryProject in fields && !ProjectAllowed(w, fields[PrimaryProject]) then Err(NotFound)
    else if exists p :: p in prerequisites && !ActiveRow(w, p, Task) then Err(NotFound)
    else Ok(Append(w.(entities := w.entities[id := Entity(kind, None)],
                      rows := w.rows[id := NewRow(kind, fields, criteria, now)],
                      deps := w.deps + IncomingEdges(prerequisites, id)),
                   Created, id, [], None, now))
  }

  // ----- updates

  ghost function UpdateRowResult(w: World, id: Id, kind: Kind, patch: Row, now: Time): Result<World, Error> {
    if kind == Decision || !PatchTyped(kind, patch) then Err(InvalidValue)
    else if !ActiveRow(w, id, kind) then Err(NotFound)
    else if Parent in patch && ParentVerdict(w, kind, id, patch[Parent]).Some?
         then Err(ParentVerdict(w, kind, id, patch[Parent]).value)
    else if PrimaryProject in patch && !ProjectAllowed(w, patch[PrimaryProject]) then Err(NotFound)
    else
      var row := w.rows[id];
      match WithDateRule(row, patch)
      case Err(e) => Err(e)
      case Ok(ruled) =>
        var changes := UpdateChanges(kind, row, ruled, now);
        if changes == [] then Err(NothingChanged)
        else
          var after := Advance(row, changes);
          Ok(Append(w.(rows := w.rows[id := after]),
                    UpdateEventKind(kind, Col(row, Status), Col(after, Status)), id, changes, None, now))
  }

  function CriterionFields(criterion: Id): seq<Field> {
    [Criterion(criterion, CDescription), Criterion(criterion, CStatus),
     Criterion(criterion, CConfidence), Criterion(criterion, CSummary)]
  }

  /** Changing the evaluation also records who evaluated. */
  function CriterionChanges(row: Row, criterion: Id, patch: Row, source: Value): seq<Change>
  {
    var changes := Diff(CriterionFields(criterion), row, patch);
    if exists c :: c in changes && c.field != Criterion(criterion, CDescription)
    then changes + [Change(Criterion(criterion, CSource), Col(row, Criterion(criterion, CSource)), source)]
    else changes
  }

  predicate CriterionPatchOk(criterion: Id, patch: Row) {
    && (forall f :: f in patch ==> f in CriterionFields(criterion))
    && (Criterion(criterion, CDescription) in patch ==> patch[Criterion(criterion, CDescription)].Text?)
    && (Criterion(criterion, CStatus) in patch ==> patch[Criterion(criterion, CStatus)].Text?)
  }

  function UpdateCriterionResult(w: World, goal: Id, criterion: Id, patch: Row, source: Value, now: Time): Result<World, Error> {
    if !CriterionPatchOk(criterion, patch) then Err(InvalidValue)
    else if !ActiveRow(w, goal, Goal) || Criterion(criterion, CSource) !in w.rows[goal] then Err(NotFound)
    else
      var changes := CriterionChanges(w.rows[goal], criterion, patch, source);
      if changes == [] then Err(NothingChanged)
      else Ok(Append(w.(rows := w.rows[goal := Advance(w.rows[goal], changes)]), CriterionUpdated, goal, changes, None, now))
  }

  // ----- decisions and relations

  function CreateDecisionResult(w: World, id: Id, status: DecisionStatus, supersedes: Option<Id>, now: Time): Result<World, Error> {
    if id in w.entities then Err(InvalidValue)
    else
      var created := w.(entities := w.entities[id := Entity(Decision, None)],
                        decisions := w.decisions[id := DecisionRow(status, supersedes)]);
      match supersedes
      case None => Ok(Append(created, DecisionCreated, id, [], None, now))
      case Some(previous) =>
        if status != DActive then Err(NotActiveDecision)
        else if !ActiveEntity(w, previous, Decision) || previous !in w.decisions then Err(NotFound)
        else if w.decisions[previous].status != DActive then Err(NotActiveDecision)
        else
          var retired := created.(entities := created.entities[previous := Entity(Decision, Some(id))],
                                  decisions := created.decisions[previous := w.decisions[previous].(status := DSuperseded)]);
          Ok(Append(Append(retired, DecisionSuperseded, previous, [], None, now), DecisionCreated, id, [], None, now))
  }

  function RevokeDecisionResult(w: World, id: Id, now: Time): Result<World, Error> {
    if !ActiveEntity(w, id, Decision) || id !in w.decisions then Err(NotFound)
    else if w.decisions[id].status != DActive then Err(NotActiveDecision)
    else Ok(Append(w.(decisions := w.decisions[id := w.decisions[id].(status := DRevoked)]),
                   DecisionRevoked, id, [], None, now))
  }

  ghost function AddDependencyResult(w: World, prerequisite: Id, dependent: Id, now: Time): Result<World, Error> {
    if prerequisite == dependent then Err(InvalidValue)
    else if !ActiveRow(w, prerequisite, Task) || !ActiveRow(w, dependent, Task) then Err(NotFound)
    else if (prerequisite, dependent) in w.deps then Ok(w)
    else if Reaches(w.deps, dependent, prerequisite) then Err(Cycle)
    else Ok(Append(w.(deps := w.deps + {(prerequisite, dependent)}), RelationCreated, dependent, [], None, now))
  }

  function RelateResult(w: World, id: Id, now: Time): Result<World, Error> {
    if id !in w.entities || w.entities[id].supersededBy.Some? then Err(NotFound)
    else Ok(Append(w, RelationCreated, id, [], None, now))
  }

  // ----- undo

  /** The changes an undo event records. */
  function ReverseChanges(row: Row, changes: seq<Change>): seq<Change> {
    if changes == [] then []
    else
      var n := |changes| - 1;
      var before := Rewind(row, changes[..n]);
      var f := changes[n].field;
      ReverseChanges(row, changes[..n])
      + [Change(f, if f in before then before[f] else Null, changes[n].before)]
  }

  predicate Reversible(row: Row, changes: seq<Change>) {
    forall c :: c in changes ==> c.field in row
  }

  /** The verdict on the first change that cannot be undone: a column the row does not
      have, or an old parent that may no longer be written. */
  ghost function ChangesVerdict(w: World, kind: Kind, id: Id, changes: seq<Change>): Option<Error>
    requires id in w.rows
  {
    if changes == [] then None
    else
      var change := changes[|changes| - 1];
      var earlier := ChangesVerdict(w, kind, id, changes[..|changes| - 1]);
      if earlier.Some? then earlier
      else if change.field !in w.rows[id] then Some(NotReversible)
      else if change.field == Parent then ParentVerdict(w, kind, id, change.before)
      else None
  }

  ghost function UndoEvent(w: World, target: nat, now: Time): Result<World, Error>
    requires target < |w.events|
  {
    var id := w.events[target].entity;
    if id !in w.entities || w.entities[id].supersededBy.Some? || id !in w.rows then Err(NotFound)
    else
      var row, changes, kind := w.rows[id], w.events[target].changes, w.entities[id].kind;
      if ChangesVerdict(w, kind, id, changes).Some? then Err(ChangesVerdict(w, kind, id, changes).value)
      else Ok(Append(w.(rows := w.rows[id := Rewind(row, changes)]),
                     UndoApplied, id, ReverseChanges(row, changes), Some(target), now))
  }

  ghost function UndoResult(w: World, entity: Option<Id>, now: Time): Result<World, Error> {
    if entity.Some? && (entity.value !in w.entities || w.entities[entity.value].supersededBy.Some?) then Err(NotFound)
    else match Latest(w.events, entity, |w.events|)
         case None => Err(NothingToUndo)
         case Some(target) => UndoEvent(w, target, now)
  }

  ghost function Execute(w: World, command: Command): Result<World, Error> {
    match command
    case CreateRow(kind, id, fields, criteria, prerequisites, now) =>
      CreateRowResult(w, kind, id, fields, criteria, prerequisites, now)
    case UpdateRow(id, kind, patch, now) => UpdateRowResult(w, id, kind, patch, now)
    case UpdateCriterion(goal, criterion, patch, source, now) =>
      UpdateCriterionResult(w, goal, criterion, patch, source, now)
    case CreateDecision(id, status, supersedes, now) => CreateDecisionResult(w, id, status, supersedes, now)
    case RevokeDecision(id, now) => RevokeDecisionResult(w, id, now)
    case AddDependency(prerequisite, dependent, now) => AddDependencyResult(w, prerequisite, dependent, now)
    case Relate(id, now) => RelateResult(w, id, now)
    case Undo(entity, now) => UndoResult(w, entity, now)
  }

  const EMPTY := World(map[], map[], map[], {}, [], None)

  /** A run: rejected commands leave the state as it was. */
  ghost function Run(commands: seq<Command>): World
    decreases |commands|
  {
    if commands == [] then EMPTY
    else
      var before := Run(commands[..|commands| - 1]);
      match Execute(before, commands[|commands| - 1])
      case Ok(w) => w
      case Err(_) => before
  }
}
