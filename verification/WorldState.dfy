/** The World State service over its tables. Every action ends in the state its
    specification gives, or leaves the tables unchanged and reports the same error. */
module WorldState {
  import opened Basics
  import opened Graphs
  import opened WorldModel
  import opened WorldSpec
  import opened WorldGraphs
  import opened WorldWalks
  import opened WorldUndo
  import opened WorldOutcomes

  class WorldStateService {
    var entities: map<Id, Entity>
    var rows: map<Id, Row>
    var decisions: map<Id, DecisionRow>
    var deps: set<Edge>
    var events: seq<Event>
    var lastEventAt: Option<Time>

    function S(): World
      reads this
    {
      World(entities, rows, decisions, deps, events, lastEventAt)
    }

    /** The tables are as some run of commands left them. */
    ghost predicate Valid()
      reads this
    {
      GraphsOk(S())
    }

    constructor ()
      ensures Valid() && S() == EMPTY
    {
      entities, rows, decisions, deps, events, lastEventAt := map[], map[], map[], {}, [], None;
      new;
      ReachableGraphsOk([]);
    }

    /** Walks up from the proposed parent until a root, the child, or an inactive row. */
    method ValidateParentChain(kind: Kind, child: Id, parent: Value) returns (r: Option<Error>)
      requires Valid()
      ensures r == ParentVerdict(S(), kind, child, parent)
    {
      if !parent.Ref? {
        return None;
      }
      if parent.id == child {
        return Some(Cycle);
      }
      ghost var w := S();
      var seen, current := {child}, parent;
      ghost var path: seq<Id> := [];
      ClimbStarts(w, kind, child, parent);
      while current.Ref?
        invariant Climb(w, kind, child, parent, path, seen, current)
        decreases w.rows.Keys - seen
      {
        if current.id in seen {
          ClimbMeets(w, kind, child, parent, path, seen, current);
          return Some(Cycle);
        }
        if !ActiveRow(S(), current.id, kind) {
          ClimbBlocked(w, kind, child, parent, path, seen, current);
          return Some(NotFound);
        }
        ClimbOne(w, kind, child, parent, path, seen, current);
        seen, path := seen + {current.id}, path + [current.id];
        current := ParentOf(S(), current.id);
      }
      ClimbEnds(w, kind, child, parent, path, seen, current);
      return None;
    }

    /** Breadth-first from the dependent task: would the prerequisite be reached? */
    method DependencyWouldCycle(prerequisite: Id, dependent: Id) returns (r: bool)
      ensures r <==> Reaches(deps, dependent, prerequisite)
    {
      if prerequisite == dependent {
        ReachesSelf(deps, dependent);
        return true;
      }
      var frontier, seen := {dependent}, {};
      FrontierStarts(deps, dependent, prerequisite);
      while frontier != {}
        invariant Frontier(deps, dependent, prerequisite, seen, frontier)
        decreases Nodes(deps) + {dependent} - seen
      {
        if prerequisite in frontier {
          return true;
        }
        FrontierOne(deps, dependent, prerequisite, seen, frontier);
        seen, frontier := seen + frontier, Successors(deps, frontier) - (seen + frontier);
      }
      FrontierEnds(deps, dependent, prerequisite, seen);
      return false;
    }

    method AppendEvent(kind: EventKind, entity: Id, changes: seq<Change>, reverses: Option<nat>, now: Time)
      modifies `events, `lastEventAt
      ensures S() == Append(old(S()), kind, entity, changes, reverses, now)
    {
      var at := now;
      if lastEventAt.Some? && at <= lastEventAt.value {
        at := lastEventAt.value + 1;
      }
      lastEventAt := Some(at);
      events := events + [Event(kind, entity, changes, reverses, at)];
    }

    method InsertDependencies(prerequisites: seq<Id>, id: Id)
      modifies `deps
      ensures deps == old(deps) + IncomingEdges(prerequisites, id)
    {
      for i := 0 to |prerequisites|
        invariant deps == old(deps) + IncomingEdges(prerequisites[..i], id)
      {
        deps := deps + {(prerequisites[i], id)};
        assert prerequisites[..i + 1] == prerequisites[..i] + [prerequisites[i]];
      }
      assert prerequisites[..|prerequisites|] == prerequisites;
    }

    /** The validation of a new row, before anything is written. */
    method RefuseRow(kind: Kind, id: Id, fields: Row, criteria: map<Id, Value>, prerequisites: seq<Id>, ghost now: Time)
      returns (r: Option<Error>)
      ensures r == ErrorOf(CreateRowResult(S(), kind, id, fields, criteria, prerequisites, now))
    {
      OrderedFieldsAreColumns(kind);
      if kind == Decision || id in entities || !PatchTyped(kind, fields)
         || !(forall f :: f in OrderedFields(kind) ==> f in fields)
         || (!fields[DateType].Null? && fields[Date].Null?)
         || (kind != Task && prerequisites != []) || (kind != Goal && criteria != map[]) {
        return Some(InvalidValue);
      }
      if fields[Parent].Ref? && !ActiveRow(S(), fields[Parent].id, kind) {
        return Some(NotFound);
      }
      if PrimaryProject in fields && !ProjectAllowed(S(), fields[PrimaryProject]) {
        return Some(NotFound);
      }
      if exists p :: p in prerequisites && !ActiveRow(S(), p, Task) {
        return Some(NotFound);
      }
      return None;
    }

    method CreateRow(kind: Kind, id: Id, fields: Row, criteria: map<Id, Value>, prerequisites: seq<Id>, now: Time)
      returns (r: Option<Error>)
      requires Valid()
      modifies this
      ensures Valid() && Performs(old(S()), Command.CreateRow(kind, id, fields, criteria, prerequisites, now), r, S())
      ensures r.None? ==> id in rows && FreshRow(rows[id], kind, fields, criteria, now)
      ensures r.None? ==> forall p: Id, d: Id :: (p, d) in deps <==> (p, d) in old(deps) || (d == id && p in prerequisites)
    {
      ghost var w := S();
      r := RefuseRow(kind, id, fields, criteria, prerequisites, now);
      if r.Some? {
        return;
      }
      InsertRow(kind, id, NewRow(kind, fields, criteria, now), prerequisites, now);
      CreateRowOutcome(w, Command.CreateRow(kind, id, fields, criteria, prerequisites, now));
      ExecuteKeepsGraphs(w, Command.CreateRow(kind, id, fields, criteria, prerequisites, now));
    }

    /** The writes of a creation. */
    method InsertRow(kind: Kind, id: Id, row: Row, prerequisites: seq<Id>, now: Time)
      modifies this
      ensures S() == Append(old(S()).(entities := old(entities)[id := Entity(kind, None)], rows := old(rows)[id := row],
                                      deps := old(deps) + IncomingEdges(prerequisites, id)),
                            Created, id, [], None, now)
    {
      entities := entities[id := Entity(kind, None)];
      rows := rows[id := row];
      InsertDependencies(prerequisites, id);
      AppendEvent(Created, id, [], None, now);
    }

    /** Writes the provided columns that differ, one after the other. */
    method WriteColumns(fields: seq<Field>, row0: Row, patch: Row) returns (row: Row, changes: seq<Change>)
      requires forall i, j :: 0 <= i < j < |fields| ==> fields[i] != fields[j]
      ensures changes == Diff(fields, row0, patch) && row == Advance(row0, changes)
    {
      row, changes := row0, [];
      for i := 0 to |fields|
        invariant changes == Diff(fields[..i], row0, patch) && row == Advance(row0, changes)
      {
        var f := fields[i];
        Untouched(fields, i, row0, patch);
        assert fields[..i + 1][..i] == fields[..i];
        if f in patch && f in row && row[f] != patch[f] {
          var change := Change(f, row[f], patch[f]);
          assert (changes + [change])[..|changes|] == changes;
          changes := changes + [change];
          row := row[f := patch[f]];
        }
      }
      assert fields[..|fields|] == fields;
    }

    /** The row after an update and the changes it records. */
    method ApplyPatch(kind: Kind, row0: Row, patch: Row, now: Time) returns (row: Row, changes: seq<Change>)
      requires kind != Decision
      ensures changes == UpdateChanges(kind, row0, patch, now) && row == Advance(row0, changes)
    {
      OrderedFieldsDistinct(kind);
      row, changes := WriteColumns(OrderedFields(kind), row0, patch);
      ghost var columns := changes;
      WrittenStatus(kind, row0, patch);
      if Status in patch && Col(row, Status) != Col(row0, Status) {
        var completed := Col(row, CompletedAt);
        if Col(row, Status) == DoneStatus(kind) {
          completed := At(now);
        } else if Col(row0, Status) == DoneStatus(kind) {
          completed := Null;
        }
        if CompletedAt in row && completed != row[CompletedAt] {
          changes := changes + [Change(CompletedAt, row[CompletedAt], completed)];
          row := row[CompletedAt := completed];
        }
      }
      AdvanceConcat(row0, columns, changes[|columns|..]);
      assert changes == columns + changes[|columns|..];
      SingleAdvance(Advance(row0, columns), changes[|columns|..]);
    }

    /** The checks an update makes on the state it finds, and the patch with the date rule applied. */
    method RefuseUpdate(id: Id, kind: Kind, patch: Row, ghost now: Time) returns (r: Result<Row, Error>)
      requires Valid()
      ensures r.Err? ==> UpdateRowResult(S(), id, kind, patch, now) == Err(r.error)
      ensures r.Ok? ==> ActiveRow(S(), id, kind) && kind != Decision
                        && UpdateRowResult(S(), id, kind, patch, now) == RuledUpdate(S(), id, kind, r.value, now)
    {
      if kind == Decision || !PatchTyped(kind, patch) {
        return Err(InvalidValue);
      }
      if !ActiveRow(S(), id, kind) {
        return Err(NotFound);
      }
      if Parent in patch {
        var verdict := ValidateParentChain(kind, id, patch[Parent]);
        if verdict.Some? {
          return Err(verdict.value);
        }
      }
      if PrimaryProject in patch && !ProjectAllowed(S(), patch[PrimaryProject]) {
        return Err(NotFound);
      }
      r := WithDateRule(rows[id], patch);
    }

    method UpdateRow(id: Id, kind: Kind, patch: Row, now: Time) returns (r: Option<Error>)
      requires Valid()
      modifies this
      ensures Valid() && Performs(old(S()), Command.UpdateRow(id, kind, patch, now), r, S())
      ensures r.None? && old(RowsValid(S())) ==> id in old(rows) && id in rows && UpdatedRow(kind, old(rows)[id], patch, rows[id], now)
    {
      ghost var w := S();
      var ruled := RefuseUpdate(id, kind, patch, now);
      if ruled.Err? {
        return Some(ruled.error);
      }
      var row, changes := ApplyPatch(kind, rows[id], ruled.value, now);
      if changes == [] {
        return Some(NothingChanged);
      }
      var event := UpdateEventKind(kind, Col(rows[id], Status), Col(row, Status));
      rows := rows[id := row];
      AppendEvent(event, id, changes, None, now);
      ExecuteKeepsGraphs(w, Command.UpdateRow(id, kind, patch, now));
      if RowsValid(w) {
        UpdateOutcome(w, Command.UpdateRow(id, kind, patch, now));
      }
      return None;
    }

    /** The goal's row after a criterion update; an evaluation also records who evaluated. */
    method ApplyCriterionPatch(row0: Row, criterion: Id, patch: Row, source: Value) returns (row: Row, changes: seq<Change>)
      ensures changes == CriterionChanges(row0, criterion, patch, source) && row == Advance(row0, changes)
    {
      row, changes := WriteColumns(CriterionFields(criterion), row0, patch);
      if exists c :: c in changes && c.field != Criterion(criterion, CDescription) {
        var evaluator := Criterion(criterion, CSource);
        EvaluatorUntouched(row0, criterion, patch);
        AdvanceOne(row0, changes, Change(evaluator, Col(row, evaluator), source));
        changes := changes + [Change(evaluator, Col(row, evaluator), source)];
        row := row[evaluator := source];
      }
    }

    method UpdateCriterion(goal: Id, criterion: Id, patch: Row, source: Value, now: Time) returns (r: Option<Error>)
      requires Valid()
      modifies this
      ensures Valid() && Performs(old(S()), Command.UpdateCriterion(goal, criterion, patch, source, now), r, S())
    {
      ghost var w := S();
      if !CriterionPatchOk(criterion, patch) {
        return Some(InvalidValue);
      }
      if !ActiveRow(S(), goal, Goal) || Criterion(criterion, CSource) !in rows[goal] {
        return Some(NotFound);
      }
      var row, changes := ApplyCriterionPatch(rows[goal], criterion, patch, source);
      if changes == [] {
        return Some(NothingChanged);
      }
      rows := rows[goal := row];
      AppendEvent(CriterionUpdated, goal, changes, None, now);
      ExecuteKeepsGraphs(w, Command.UpdateCriterion(goal, criterion, patch, source, now));
      return None;
    }

    /** The decision a new one would replace must be active. */
    method RefuseSupersession(status: DecisionStatus, supersedes: Option<Id>) returns (r: Option<Error>)
      requires Valid()
      ensures r == if supersedes.None? then None
                   else if status != DActive then Some(NotActiveDecision)
                   else if !ActiveEntity(S(), supersedes.value, Decision) then Some(NotFound)
                   else if decisions[supersedes.value].status != DActive then Some(NotActiveDecision)
                   else None
    {
      if supersedes.None? {
        return None;
      }
      if status != DActive {
        return Some(NotActiveDecision);
      }
      if !ActiveEntity(S(), supersedes.value, Decision) {
        return Some(NotFound);
      }
      if decisions[supersedes.value].status != DActive {
        return Some(NotActiveDecision);
      }
      return None;
    }

    method CreateDecision(id: Id, status: DecisionStatus, supersedes: Option<Id>, now: Time) returns (r: Option<Error>)
      requires Valid()
      modifies this
      ensures Valid() && Performs(old(S()), Command.CreateDecision(id, status, supersedes, now), r, S())
    {
      ghost var w := S();
      if id in entities {
        return Some(InvalidValue);
      }
      r := RefuseSupersession(status, supersedes);
      if r.Some? {
        return;
      }
      entities := entities[id := Entity(Decision, None)];
      decisions := decisions[id := DecisionRow(status, supersedes)];
      if supersedes.Some? {
        var replaced := supersedes.value;
        decisions := decisions[replaced := decisions[replaced].(status := DSuperseded)];
        entities := entities[replaced := entities[replaced].(supersededBy := Some(id))];
        AppendEvent(DecisionSuperseded, replaced, [], None, now);
      }
      AppendEvent(DecisionCreated, id, [], None, now);
      ExecuteKeepsGraphs(w, Command.CreateDecision(id, status, supersedes, now));
    }

    method RevokeDecision(id: Id, now: Time) returns (r: Option<Error>)
      requires Valid()
      modifies this
      ensures Valid() && Performs(old(S()), Command.RevokeDecision(id, now), r, S())
      ensures r.None? ==> id in old(decisions) && old(decisions)[id].status == DActive
                          && decisions == old(decisions)[id := DecisionRow(DRevoked, old(decisions)[id].supersedes)]
    {
      ghost var w := S();
      if !ActiveEntity(S(), id, Decision) {
        return Some(NotFound);
      }
      if decisions[id].status != DActive {
        return Some(NotActiveDecision);
      }
      decisions := decisions[id := decisions[id].(status := DRevoked)];
      AppendEvent(DecisionRevoked, id, [], None, now);
      ExecuteKeepsGraphs(w, Command.RevokeDecision(id, now));
      return None;
    }

    method AddTaskDependency(prerequisite: Id, dependent: Id, now: Time) returns (r: Option<Error>)
      requires Valid()
      modifies this
      ensures Valid() && Performs(old(S()), AddDependency(prerequisite, dependent, now), r, S())
      ensures deps == if r.None? then old(deps) + {(prerequisite, dependent)} else old(deps)
      ensures r == Some(Cycle) <==>
                && prerequisite != dependent && Present(old(S()), prerequisite, Task) && Present(old(S()), dependent, Task)
                && (prerequisite, dependent) !in old(deps) && Reaches(old(deps), dependent, prerequisite)
    {
      ghost var w := S();
      if prerequisite == dependent {
        return Some(InvalidValue);
      }
      if !ActiveRow(S(), prerequisite, Task) || !ActiveRow(S(), dependent, Task) {
        return Some(NotFound);
      }
      if (prerequisite, dependent) in deps {
        assert deps == deps + {(prerequisite, dependent)};
        return None;
      }
      var cycle := DependencyWouldCycle(prerequisite, dependent);
      if cycle {
        return Some(Cycle);
      }
      deps := deps + {(prerequisite, dependent)};
      AppendEvent(RelationCreated, dependent, [], None, now);
      ExecuteKeepsGraphs(w, AddDependency(prerequisite, dependent, now));
      return None;
    }

    /** Takes back the changes in the order they were recorded, validating a restored parent. */
    method RewindChanges(kind: Kind, id: Id, changes: seq<Change>)
      returns (r: Option<Error>, row: Row, reversed: seq<Change>)
      requires Valid() && id in rows
      ensures r == ChangesVerdict(S(), kind, id, changes)
      ensures r.None? ==> row == Rewind(rows[id], changes) && reversed == ReverseChanges(rows[id], changes)
    {
      ghost var w := S();
      row, reversed := rows[id], [];
      for i := 0 to |changes|
        invariant ChangesVerdict(w, kind, id, changes[..i]).None?
        invariant row == Rewind(w.rows[id], changes[..i]) && row.Keys == w.rows[id].Keys
        invariant reversed == ReverseChanges(w.rows[id], changes[..i])
      {
        var change := changes[i];
        assert changes[..i + 1][..i] == changes[..i];
        if change.field !in row {
          VerdictStops(w, kind, id, changes, i + 1);
          return Some(NotReversible), row, reversed;
        }
        if change.field == Parent {
          var verdict := ValidateParentChain(kind, id, change.before);
          if verdict.Some? {
            VerdictStops(w, kind, id, changes, i + 1);
            return verdict, row, reversed;
          }
        }
        reversed := reversed + [Change(change.field, row[change.field], change.before)];
        row := row[change.field := change.before];
      }
      assert changes[..|changes|] == changes;
      return None, row, reversed;
    }

    /** The event to undo: the newest live one, on the given entity or on any. */
    method FindTarget(entity: Option<Id>) returns (r: Result<nat, Error>)
      ensures r.Err? ==> UndoResult(S(), entity, 0) == Err(r.error)
      ensures r.Ok? ==> Latest(events, entity, |events|) == Some(r.value)
                        && events[r.value].entity in entities && entities[events[r.value].entity].supersededBy.None?
    {
      var id: Id;
      if entity.None? {
        var candidate := Latest(events, None, |events|);
        if candidate.None? {
          return Err(NothingToUndo);
        }
        id := events[candidate.value].entity;
        NewestIsNewestOnItsEntity(events);
      } else {
        id := entity.value;
      }
      if id !in entities || entities[id].supersededBy.Some? {
        return Err(NotFound);
      }
      var target := Latest(events, Some(id), |events|);
      if target.None? {
        return Err(NothingToUndo);
      }
      return Ok(target.value);
    }

    method UndoLastChange(entity: Option<Id>, now: Time) returns (r: Option<Error>)
      requires Valid()
      modifies this
      ensures Valid() && Performs(old(S()), Undo(entity, now), r, S())
    {
      ghost var w := S();
      var found := FindTarget(entity);
      if found.Err? {
        return Some(found.error);
      }
      var id, changes := events[found.value].entity, events[found.value].changes;
      if id !in rows {
        return Some(NotFound);
      }
      var row, reversed;
      r, row, reversed := RewindChanges(entities[id].kind, id, changes);
      if r.Some? {
        return;
      }
      rows := rows[id := row];
      AppendEvent(UndoApplied, id, reversed, Some(found.value), now);
      ExecuteKeepsGraphs(w, Undo(entity, now));
    }
  }

  /** The part of an update that follows its checks. */
  function RuledUpdate(w: World, id: Id, kind: Kind, ruled: Row, now: Time): Result<World, Error>
    requires id in w.rows
  {
    var row := w.rows[id];
    var changes := UpdateChanges(kind, row, ruled, now);
    if changes == [] then Err(NothingChanged)
    else
      var after := Advance(row, changes);
      Ok(Append(w.(rows := w.rows[id := after]),
                UpdateEventKind(kind, Col(row, Status), Col(after, Status)), id, changes, None, now))
  }

  /** A column not yet compared still has its old value. */
  lemma Untouched(fields: seq<Field>, i: nat, row: Row, patch: Row)
    requires i < |fields| && forall j :: 0 <= j < i ==> fields[j] != fields[i]
    ensures var after := Advance(row, Diff(fields[..i], row, patch));
            (fields[i] in after <==> fields[i] in row) && Col(after, fields[i]) == Col(row, fields[i])
  {
    DiffFields(fields[..i], row, patch);
    AdvanceLeavesOthers(row, Diff(fields[..i], row, patch), fields[i]);
  }

  /** What the column writes leave in the status and completion columns. */
  lemma WrittenStatus(kind: Kind, row: Row, patch: Row)
    requires kind != Decision
    ensures var after := Advance(row, Diff(OrderedFields(kind), row, patch));
            && after.Keys == row.Keys && Col(after, CompletedAt) == Col(row, CompletedAt)
            && Col(after, Status) == StatusAfter(row, patch)
  {
    ComparedColumns(kind, row, patch);
  }

  /** The first refused change decides the verdict on all of them. */
  lemma {:induction false} VerdictStops(w: World, kind: Kind, id: Id, changes: seq<Change>, n: nat)
    requires id in w.rows && n <= |changes| && ChangesVerdict(w, kind, id, changes[..n]).Some?
    ensures ChangesVerdict(w, kind, id, changes) == ChangesVerdict(w, kind, id, changes[..n])
    decreases |changes|
  {
    if n == |changes| {
      assert changes[..n] == changes;
    } else {
      assert changes[..|changes| - 1][..n] == changes[..n];
      VerdictStops(w, kind, id, changes[..|changes| - 1], n);
    }
  }

  /** The newest live event overall is the newest live one on its own entity. */
  lemma NewestIsNewestOnItsEntity(events: seq<Event>)
    ensures var newest := Latest(events, None, |events|);
            newest.Some? ==> Latest(events, Some(events[newest.value].entity), |events|) == newest
  {
  }

  lemma AdvanceOne(row: Row, changes: seq<Change>, change: Change)
    ensures Advance(row, changes + [change]) == Advance(row, changes)[change.field := change.after]
  {
    assert (changes + [change])[..|changes|] == changes;
  }

  /** Comparing the criterion's columns leaves its evaluator alone. */
  lemma EvaluatorUntouched(row: Row, criterion: Id, patch: Row)
    ensures var evaluator := Criterion(criterion, CSource);
            Col(Advance(row, Diff(CriterionFields(criterion), row, patch)), evaluator) == Col(row, evaluator)
  {
    DiffFields(CriterionFields(criterion), row, patch);
    AdvanceLeavesOthers(row, Diff(CriterionFields(criterion), row, patch), Criterion(criterion, CSource));
  }

  /** What a service action does, in terms of its command: the state it ends in, or the error
      it reports from an unchanged state. */
  ghost predicate Performs(before: World, c: Command, r: Option<Error>, after: World) {
    match Execute(before, c)
    case Ok(w) => r.None? && after == w
    case Err(e) => r == Some(e) && after == before
  }
}
