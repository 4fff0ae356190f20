/** What each command leaves behind, column by column and edge by edge, and exactly when it
    is refused. */
module WorldOutcomes {
  import opened Basics
  import opened Graphs
  import opened WorldModel
  import opened WorldSpec
  import opened WorldGraphs
  import opened WorldUndo

  // ----- the event log

  /** One event more, stamped with the clock or, if that has not moved on, right after the
      last one. */
  ghost predicate LogsOne(w: World, w': World, event: Event, now: Time) {
    && w'.events == w.events + [event] && w'.lastEventAt == Some(event.at)
    && event.at == (if w.lastEventAt.None? || now > w.lastEventAt.value then now else w.lastEventAt.value + 1)
  }

  /** Nothing but the rows and the log. */
  ghost predicate OnlyRows(w: World, w': World) {
    w'.entities == w.entities && w'.decisions == w.decisions && w'.deps == w.deps
  }

  // ----- creating a row

  /** The columns of a new row: the given ones, the completion time, and for each criterion
      its description, unknown and not evaluated. */
  ghost predicate FreshRow(row: Row, kind: Kind, fields: Row, criteria: map<Id, Value>, now: Time) {
    && (forall f :: f in fields ==> f in row && row[f] == fields[f])
    && (forall k :: k in criteria ==> FreshCriterion(row, k, criteria[k]))
    && (forall f :: f in row ==> f in fields || f == CompletedAt || (f.Criterion? && f.id in criteria))
    && CompletedAt in row
    && row[CompletedAt] == if (kind == Task && Col(row, Status) == Text("DONE"))
                              || (kind == Project && Col(row, Status) == Text("COMPLETED"))
                              || (kind == Goal && Col(row, Status) == Text("ACHIEVED"))
                           then At(now) else Null
  }

  lemma GivenColumns(kind: Kind, fields: Row, criteria: map<Id, Value>, now: Time)
    requires PatchTyped(kind, fields)
    ensures var row := NewRow(kind, fields, criteria, now);
            && (forall f :: f in fields ==> f in row && row[f] == fields[f])
            && (forall f :: f in row ==> f in fields || f == CompletedAt || (f.Criterion? && f.id in criteria))
  {
    forall f | f in fields ensures HasColumn(kind, f) {}
  }

  lemma PartOf(criteria: map<Id, Value>, k: Id, part: CriterionPart)
    requires k in criteria
    ensures Criterion(k, part) in CriterionColumns(criteria)
  {
    match part {
      case CDescription => assert part in {CDescription, CStatus, CConfidence, CSummary, CSource};
      case CStatus => assert part in {CDescription, CStatus, CConfidence, CSummary, CSource};
      case CConfidence => assert part in {CDescription, CStatus, CConfidence, CSummary, CSource};
      case CSummary => assert part in {CDescription, CStatus, CConfidence, CSummary, CSource};
      case CSource => assert part in {CDescription, CStatus, CConfidence, CSummary, CSource};
    }
  }

  lemma CriterionAtFirst(kind: Kind, fields: Row, criteria: map<Id, Value>, now: Time, k: Id)
    requires PatchTyped(kind, fields) && k in criteria
    ensures FreshCriterion(NewRow(kind, fields, criteria, now), k, criteria[k])
  {
    var columns, row := CriterionColumns(criteria), NewRow(kind, fields, criteria, now);
    forall part: CriterionPart ensures Criterion(k, part) in row && row[Criterion(k, part)] == columns[Criterion(k, part)] {
      PartOf(criteria, k, part);
      assert !HasColumn(kind, Criterion(k, part));
    }
    PartOf(criteria, k, CDescription);
    PartOf(criteria, k, CStatus);
  }

  /** A criterion nobody has evaluated yet. */
  ghost predicate FreshCriterion(row: Row, k: Id, description: Value) {
    && Col(row, Criterion(k, CDescription)) == description && Col(row, Criterion(k, CStatus)) == Text("UNKNOWN")
    && Criterion(k, CConfidence) in row && row[Criterion(k, CConfidence)].Null?
    && Criterion(k, CSummary) in row && row[Criterion(k, CSummary)].Null?
    && Criterion(k, CSource) in row && row[Criterion(k, CSource)].Null?
  }

  lemma NewRowIsFresh(kind: Kind, fields: Row, criteria: map<Id, Value>, now: Time)
    requires kind != Decision && PatchTyped(kind, fields) && Status in fields
    ensures FreshRow(NewRow(kind, fields, criteria, now), kind, fields, criteria, now)
  {
    GivenColumns(kind, fields, criteria, now);
    forall k | k in criteria {
      CriterionAtFirst(kind, fields, criteria, now, k);
    }
  }

  /** A new task depends on each of its prerequisites, and on nothing else. */
  lemma CreateRowOutcome(w: World, c: Command)
    requires c.CreateRow? && Execute(w, c).Ok?
    ensures Status in c.fields
    ensures var w' := Execute(w, c).value;
            && c.id !in w.entities && w'.entities == w.entities[c.id := Entity(c.kind, None)]
            && c.id in w'.rows && w'.rows == w.rows[c.id := w'.rows[c.id]]
            && FreshRow(w'.rows[c.id], c.kind, c.fields, c.criteria, c.now)
            && (forall p: Id, d: Id :: (p, d) in w'.deps <==> (p, d) in w.deps || (d == c.id && p in c.prerequisites))
            && w'.decisions == w.decisions
            && exists at :: LogsOne(w, w', Event(Created, c.id, [], None, at), c.now)
  {
    assert HasColumn(c.kind, Status);
    NewRowIsFresh(c.kind, c.fields, c.criteria, c.now);
    var w' := Execute(w, c).value;
    assert LogsOne(w, w', Event(Created, c.id, [], None, w'.lastEventAt.value), c.now);
  }

  /** A well-formed creation is refused exactly if a row it refers to is not there: the
      parent, the project or a prerequisite. */
  lemma CreateRowRefused(w: World, c: Command)
    requires c.CreateRow? && PatchTyped(c.kind, c.fields) && AllColumns(c.kind, c.fields)
    requires c.kind != Decision && c.id !in w.entities && Date in c.fields && DateType in c.fields && Parent in c.fields
    requires (c.kind != Task ==> c.prerequisites == []) && (c.kind != Goal ==> c.criteria == map[])
    ensures Execute(w, c) == Err(InvalidValue) <==> !c.fields[DateType].Null? && c.fields[Date].Null?
    ensures Execute(w, c).Ok? <==>
              && (c.fields[DateType].Null? || !c.fields[Date].Null?)
              && (c.fields[Parent].Ref? ==> Present(w, c.fields[Parent].id, c.kind))
              && (PrimaryProject in c.fields && c.fields[PrimaryProject].Ref? ==> Present(w, c.fields[PrimaryProject].id, Project))
              && forall p :: p in c.prerequisites ==> Present(w, p, Task)
  {
  }

  /** The entity exists, is of that kind, was not superseded, and has its row. */
  predicate Present(w: World, id: Id, kind: Kind) {
    id in w.entities && w.entities[id] == Entity(kind, None) && id in w.rows
  }

  // ----- dependencies

  /** An accepted dependency is stored from the prerequisite to the dependent task; storing it
      again changes nothing. */
  lemma AddDependencyOutcome(w: World, c: Command)
    requires c.AddDependency? && Execute(w, c).Ok?
    ensures var w' := Execute(w, c).value;
            && w'.deps == w.deps + {(c.prerequisite, c.dependent)}
            && w'.entities == w.entities && w'.rows == w.rows && w'.decisions == w.decisions
            && if (c.prerequisite, c.dependent) in w.deps then w' == w
               else exists at :: LogsOne(w, w', Event(RelationCreated, c.dependent, [], None, at), c.now)
  {
    var w' := Execute(w, c).value;
    if (c.prerequisite, c.dependent) in w.deps {
      assert w.deps + {(c.prerequisite, c.dependent)} == w.deps;
    } else {
      assert LogsOne(w, w', Event(RelationCreated, c.dependent, [], None, w'.lastEventAt.value), c.now);
    }
  }

  /** Relating an entity that is there and not superseded only logs that it was related. */
  lemma RelateOutcome(w: World, c: Command)
    requires c.Relate?
    ensures Execute(w, c).Ok? <==> c.id in w.entities && w.entities[c.id].supersededBy.None?
    ensures Execute(w, c).Err? ==> Execute(w, c).error == NotFound
    ensures Execute(w, c).Ok? ==>
              var w' := Execute(w, c).value;
              && OnlyRows(w, w') && w'.rows == w.rows
              && exists at :: LogsOne(w, w', Event(RelationCreated, c.id, [], None, at), c.now)
  {
    if Execute(w, c).Ok? {
      var w' := Execute(w, c).value;
      assert LogsOne(w, w', Event(RelationCreated, c.id, [], None, w'.lastEventAt.value), c.now);
    }
  }

  /** It is refused as a cycle exactly when the prerequisite already follows from the dependent
      task, directly or through others. */
  lemma AddDependencyRefused(w: World, c: Command)
    requires c.AddDependency?
    ensures Execute(w, c) == Err(InvalidValue) <==> c.prerequisite == c.dependent
    ensures Execute(w, c) == Err(NotFound) <==>
              c.prerequisite != c.dependent && !(Present(w, c.prerequisite, Task) && Present(w, c.dependent, Task))
    ensures Execute(w, c) == Err(Cycle) <==>
              && c.prerequisite != c.dependent && Present(w, c.prerequisite, Task) && Present(w, c.dependent, Task)
              && (c.prerequisite, c.dependent) !in w.deps
              && exists path :: IsPath(w.deps, path) && path[0] == c.dependent && path[|path| - 1] == c.prerequisite
    ensures Execute(w, c).Ok? || Execute(w, c).error in {InvalidValue, NotFound, Cycle}
  {
    var deps, d, p := w.deps, c.dependent, c.prerequisite;
    if Reaches(deps, d, p) {
      var path :| PathFromTo(deps, path, d, p);
      assert IsPath(deps, path);
    } else if path :| IsPath(deps, path) && path[0] == d && path[|path| - 1] == p {
      assert PathFromTo(deps, path, d, p);
    }
  }

  // ----- updating a row

  /** The row after an update: what the patch gives, a deadline type cleared together with its
      deadline, and a completion time that follows the status. */
  ghost predicate UpdatedRow(kind: Kind, row: Row, patch: Row, after: Row, now: Time) {
    && after.Keys == row.Keys
    && (forall f :: f in patch ==> f in after && after[f] == patch[f])
    && (forall f :: f in row && f !in patch && f != CompletedAt ==>
          after[f] == if f == DateType && Date in patch && patch[Date].Null? then Null else row[f])
    && CompletedAt in row && Status in row
    && after[CompletedAt] == if after[Status] == row[Status] then row[CompletedAt]
                             else if (kind == Task && after[Status] == Text("DONE"))
                                     || (kind == Project && after[Status] == Text("COMPLETED"))
                                     || (kind == Goal && after[Status] == Text("ACHIEVED"))
                             then At(now) else Null
  }

  /** One change for each column that differs, with its old and its new value. */
  ghost predicate RecordsDifference(row: Row, after: Row, changes: seq<Change>) {
    && (forall i, j :: 0 <= i < j < |changes| ==> changes[i].field != changes[j].field)
    && (forall i :: 0 <= i < |changes| ==>
          && changes[i].field in row && changes[i].before == row[changes[i].field]
          && changes[i].field in after && changes[i].after == after[changes[i].field] && changes[i].before != changes[i].after)
    && (forall f :: f in row && f in after && row[f] != after[f] ==> exists i :: 0 <= i < |changes| && changes[i].field == f)
  }

  /** What the log calls an update: a completion, a cancellation, another change of status, or
      just an update. */
  ghost predicate NamesUpdate(kind: Kind, before: Value, after: Value, event: EventKind) {
    event == if before == after then Updated
             else if (kind == Task && after == Text("DONE")) || (kind == Project && after == Text("COMPLETED"))
                     || (kind == Goal && after == Text("ACHIEVED")) then Completed
             else if kind != Goal && after == Text("CANCELLED") then Cancelled
             else StatusChanged
  }

  /** Changes of different columns, each from the column's value to another. */
  ghost predicate Proper(row: Row, changes: seq<Change>) {
    && (forall i, j :: 0 <= i < j < |changes| ==> changes[i].field != changes[j].field)
    && (forall i :: 0 <= i < |changes| ==>
          changes[i].field in row && changes[i].before == row[changes[i].field] && changes[i].before != changes[i].after)
  }

  lemma {:induction false} ProperChange(row: Row, changes: seq<Change>, i: nat)
    requires Proper(row, changes) && i < |changes|
    ensures changes[i].field in Advance(row, changes) && Advance(row, changes)[changes[i].field] == changes[i].after
  {
    var n := |changes| - 1;
    if i < n {
      assert changes[..n][i] == changes[i];
      ProperChange(row, changes[..n], i);
    }
  }

  lemma ProperRecords(row: Row, changes: seq<Change>)
    requires Proper(row, changes)
    ensures RecordsDifference(row, Advance(row, changes), changes)
  {
    var after := Advance(row, changes);
    forall i | 0 <= i < |changes| ensures changes[i].field in after && changes[i].after == after[changes[i].field] {
      ProperChange(row, changes, i);
    }
    forall f | f in row && f in after && row[f] != after[f] ensures exists i :: 0 <= i < |changes| && changes[i].field == f {
      if forall c :: c in changes ==> c.field != f {
        AdvanceLeavesOthers(row, changes, f);
      }
    }
  }

  lemma {:induction false} DiffIsProper(fields: seq<Field>, row: Row, patch: Row)
    requires forall i, j :: 0 <= i < j < |fields| ==> fields[i] != fields[j]
    ensures Proper(row, Diff(fields, row, patch))
    ensures forall i :: 0 <= i < |Diff(fields, row, patch)| ==> Diff(fields, row, patch)[i].field in fields
  {
    if fields != [] {
      DiffIsProper(fields[..|fields| - 1], row, patch);
    }
  }

  lemma UpdateIsProper(kind: Kind, row: Row, patch: Row, now: Time)
    ensures Proper(row, UpdateChanges(kind, row, patch, now))
  {
    OrderedFieldsDistinct(kind);
    OrderedFieldsAreColumns(kind);
    DiffIsProper(OrderedFields(kind), row, patch);
  }

  /** The columns of an update, from the checks of the row's table. */
  lemma UpdatedRowIs(kind: Kind, row: Row, patch: Row, now: Time)
    requires kind != Decision && RowOk(kind, row) && PatchTyped(kind, patch) && WithDateRule(row, patch).Ok?
    ensures UpdatedRow(kind, row, patch, Advance(row, UpdateChanges(kind, row, WithDateRule(row, patch).value, now)), now)
  {
    var ruled := WithDateRule(row, patch).value;
    UpdatedColumns(kind, row, ruled, now);
    assert HasColumn(kind, Status) && HasColumn(kind, Date) && HasColumn(kind, DateType);
    forall f | f in patch ensures HasColumn(kind, f) && f in row {}
  }

  lemma NamedAs(kind: Kind, before: Value, after: Value)
    requires kind != Decision && after.Text?
    ensures NamesUpdate(kind, before, after, UpdateEventKind(kind, before, after))
  {
  }

  ghost predicate LogsUpdate(id: Id, kind: Kind, row: Row, after: Row, event: Event) {
    && event.entity == id && event.reverses.None? && RecordsDifference(row, after, event.changes) && event.changes != []
    && NamesUpdate(kind, Col(row, Status), Col(after, Status), event.kind)
  }

  /** The state after an accepted update, as the log and the row. */
  ghost predicate Updates(w: World, w': World, c: Command, changes: seq<Change>, after: Row)
    requires c.UpdateRow? && c.id in w.rows
  {
    && after == Advance(w.rows[c.id], changes) && changes != []
    && w' == Append(w.(rows := w.rows[c.id := after]),
                    UpdateEventKind(c.kind, Col(w.rows[c.id], Status), Col(after, Status)), c.id, changes, None, c.now)
  }

  lemma UpdateIs(w: World, c: Command)
    requires c.UpdateRow? && Execute(w, c).Ok?
    ensures c.kind != Decision && PatchTyped(c.kind, c.patch) && ActiveRow(w, c.id, c.kind) && WithDateRule(w.rows[c.id], c.patch).Ok?
    ensures var changes := UpdateChanges(c.kind, w.rows[c.id], WithDateRule(w.rows[c.id], c.patch).value, c.now);
            Updates(w, Execute(w, c).value, c, changes, Advance(w.rows[c.id], changes))
  {
  }

  lemma UpdateLogs(w: World, w': World, c: Command, changes: seq<Change>, after: Row)
    requires c.UpdateRow? && c.id in w.rows && c.kind != Decision && Updates(w, w', c, changes, after)
    requires Proper(w.rows[c.id], changes) && Col(after, Status).Text?
    ensures exists event :: LogsOne(w, w', event, c.now) && LogsUpdate(c.id, c.kind, w.rows[c.id], after, event)
  {
    var event := w'.events[|w.events|];
    ProperRecords(w.rows[c.id], changes);
    NamedAs(c.kind, Col(w.rows[c.id], Status), Col(after, Status));
    assert LogsOne(w, w', event, c.now) && LogsUpdate(c.id, c.kind, w.rows[c.id], after, event);
  }

  /** In every run an accepted update writes exactly that and logs exactly the difference. */
  lemma UpdateRowOutcome(commands: seq<Command>, c: Command)
    requires c.UpdateRow? && Execute(Run(commands), c).Ok?
    ensures var w, w' := Run(commands), Execute(Run(commands), c).value;
            && c.id in w.rows && c.id in w'.rows && w'.rows == w.rows[c.id := w'.rows[c.id]] && OnlyRows(w, w')
            && UpdatedRow(c.kind, w.rows[c.id], c.patch, w'.rows[c.id], c.now)
            && exists event :: LogsOne(w, w', event, c.now) && LogsUpdate(c.id, c.kind, w.rows[c.id], w'.rows[c.id], event)
  {
    CompletionAndDeadlinesSurvive(commands);
    UpdateOutcome(Run(commands), c);
  }

  lemma UpdateOutcome(w: World, c: Command)
    requires c.UpdateRow? && Execute(w, c).Ok? && RowsValid(w)
    ensures var w' := Execute(w, c).value;
            && c.id in w.rows && c.id in w'.rows && w'.rows == w.rows[c.id := w'.rows[c.id]] && OnlyRows(w, w')
            && UpdatedRow(c.kind, w.rows[c.id], c.patch, w'.rows[c.id], c.now)
            && exists event :: LogsOne(w, w', event, c.now) && LogsUpdate(c.id, c.kind, w.rows[c.id], w'.rows[c.id], event)
  {
    UpdateIs(w, c);
    var row := w.rows[c.id];
    var ruled := WithDateRule(row, c.patch).value;
    var changes := UpdateChanges(c.kind, row, ruled, c.now);
    UpdatedRowIs(c.kind, row, c.patch, c.now);
    UpdateIsProper(c.kind, row, ruled, c.now);
    UpdatedRowOk(c.kind, row, c.patch, c.now);
    assert HasColumn(c.kind, Status);
    UpdateLogs(w, Execute(w, c).value, c, changes, Advance(row, changes));
  }

  // ----- when an update is refused

  /** Each row of the path hangs below the next one. */
  ghost predicate Ascends(w: World, kind: Kind, path: seq<Id>) {
    |path| > 0
    && forall i :: 0 <= i < |path| - 1 ==>
         && path[i] in w.rows && path[i] in w.entities && w.entities[path[i]].kind == kind
         && Parent in w.rows[path[i]] && w.rows[path[i]][Parent] == Ref(path[i + 1])
  }

  ghost predicate Above(w: World, kind: Kind, ancestor: Id, below: Id) {
    exists path :: Ascends(w, kind, path) && path[0] == below && path[|path| - 1] == ancestor
  }

  /** Reaching along parent edges is climbing from row to row. */
  lemma AboveIsReaching(w: World, kind: Kind, ancestor: Id, below: Id)
    ensures Above(w, kind, ancestor, below) <==> Reaches(ParentEdges(w, kind), below, ancestor)
  {
    var edges := ParentEdges(w, kind);
    if Above(w, kind, ancestor, below) {
      var path :| Ascends(w, kind, path) && path[0] == below && path[|path| - 1] == ancestor;
      forall i | 0 <= i < |path| - 1 ensures (path[i], path[i + 1]) in edges {
        assert ParentOf(w, path[i]) == Ref(path[i + 1]);
      }
      assert PathFromTo(edges, path, below, ancestor);
    }
    if Reaches(edges, below, ancestor) {
      var path :| PathFromTo(edges, path, below, ancestor);
      forall i | 0 <= i < |path| - 1
        ensures path[i] in w.rows && path[i] in w.entities && w.entities[path[i]].kind == kind
        ensures Parent in w.rows[path[i]] && w.rows[path[i]][Parent] == Ref(path[i + 1])
      {
        assert (path[i], path[i + 1]) in edges;
        assert ParentOf(w, path[i]) == Ref(path[i + 1]);
      }
      assert Ascends(w, kind, path);
    }
  }

  /** Why a parent is refused: it is the row itself or below it, or it is not there. */
  lemma ParentRefused(w: World, kind: Kind, child: Id, parent: Value)
    ensures ParentVerdict(w, kind, child, parent) == Some(Cycle) <==>
              parent.Ref? && (parent.id == child || (Present(w, parent.id, kind) && Above(w, kind, child, parent.id)))
    ensures ParentVerdict(w, kind, child, parent) == Some(NotFound) <==>
              parent.Ref? && parent.id != child && !Present(w, parent.id, kind)
    ensures ParentVerdict(w, kind, child, parent) in {None, Some(Cycle), Some(NotFound)}
  {
    if parent.Ref? {
      AboveIsReaching(w, kind, child, parent.id);
    }
  }

  /** After the patch a deadline type has a deadline, unless the patch clears just the deadline. */
  predicate DatesFit(row: Row, patch: Row) {
    var date, kind := if Date in patch then patch[Date] else Col(row, Date),
                      if DateType in patch then patch[DateType] else Col(row, DateType);
    kind.Null? || !date.Null? || (Date in patch && DateType !in patch)
  }

  ghost predicate ReferencesFit(w: World, id: Id, kind: Kind, patch: Row) {
    && Present(w, id, kind)
    && (Parent in patch && patch[Parent].Ref? ==>
          patch[Parent].id != id && Present(w, patch[Parent].id, kind) && !Above(w, kind, id, patch[Parent].id))
    && (PrimaryProject in patch && patch[PrimaryProject].Ref? ==> Present(w, patch[PrimaryProject].id, Project))
  }

  /** A well-formed update of a valid row is accepted exactly if what it refers to fits, the
      dates fit, and some column changes; each failure has its own error. */
  lemma UpdateRowRefused(w: World, c: Command)
    requires c.UpdateRow? && c.kind != Decision && PatchTyped(c.kind, c.patch) && RowsValid(w)
    ensures var fits := ReferencesFit(w, c.id, c.kind, c.patch);
            && (!fits <==> Execute(w, c) in {Err(NotFound), Err(Cycle)})
            && (Execute(w, c) == Err(DateRequired) <==> fits && !DatesFit(w.rows[c.id], c.patch))
            && (Execute(w, c) == Err(NothingChanged) <==>
                  fits && DatesFit(w.rows[c.id], c.patch) && forall f :: f in c.patch ==> Col(w.rows[c.id], f) == c.patch[f])
            && (Execute(w, c).Ok? || Execute(w, c).error in {NotFound, Cycle, DateRequired, NothingChanged})
    ensures Execute(w, c) == Err(Cycle) <==>
              && Present(w, c.id, c.kind) && Parent in c.patch && c.patch[Parent].Ref?
              && (c.patch[Parent].id == c.id
                  || (Present(w, c.patch[Parent].id, c.kind) && Above(w, c.kind, c.id, c.patch[Parent].id)))
  {
    if Parent in c.patch {
      ParentRefused(w, c.kind, c.id, c.patch[Parent]);
    }
    if ReferencesFit(w, c.id, c.kind, c.patch) && DatesFit(w.rows[c.id], c.patch) {
      NothingChangedIff(c.kind, w.rows[c.id], c.patch, c.now);
    }
  }

  lemma ChangesMakeADifference(row: Row, after: Row, changes: seq<Change>)
    requires RecordsDifference(row, after, changes) && changes != []
    ensures after != row
  {
    assert after[changes[0].field] != row[changes[0].field];
  }

  /** A patch that repeats what is there changes nothing. */
  lemma SamePatchSameRow(kind: Kind, row: Row, patch: Row, after: Row, now: Time)
    requires kind != Decision && RowOk(kind, row) && PatchTyped(kind, patch) && UpdatedRow(kind, row, patch, after, now)
    ensures after == row <==> forall f :: f in patch ==> Col(row, f) == patch[f]
  {
    assert HasColumn(kind, Status) && HasColumn(kind, Date) && HasColumn(kind, DateType);
    forall f | f in patch ensures HasColumn(kind, f) && f in row {}
    if forall f :: f in patch ==> Col(row, f) == patch[f] {
      forall f | f in row ensures after[f] == row[f] {
        if f in patch { assert Col(row, f) == patch[f]; }
      }
    }
  }

  lemma NothingChangedIff(kind: Kind, row: Row, patch: Row, now: Time)
    requires kind != Decision && RowOk(kind, row) && PatchTyped(kind, patch) && DatesFit(row, patch)
    ensures WithDateRule(row, patch).Ok?
    ensures UpdateChanges(kind, row, WithDateRule(row, patch).value, now) == [] <==>
              forall f :: f in patch ==> Col(row, f) == patch[f]
  {
    var ruled := WithDateRule(row, patch).value;
    var changes := UpdateChanges(kind, row, ruled, now);
    UpdatedRowIs(kind, row, patch, now);
    SamePatchSameRow(kind, row, patch, Advance(row, changes), now);
    UpdateIsProper(kind, row, ruled, now);
    ProperRecords(row, changes);
    if changes != [] {
      ChangesMakeADifference(row, Advance(row, changes), changes);
    }
  }

  // ----- criteria

  /** The criterion's columns after an update: what the patch gives, and who evaluated it if
      anything but its description changed. */
  ghost predicate UpdatedCriterion(row: Row, k: Id, patch: Row, source: Value, after: Row) {
    && (forall f :: f in patch && f in row ==> f in after && after[f] == patch[f])
    && (forall f :: f in row && f !in patch && f != Criterion(k, CSource) ==> f in after && after[f] == row[f])
    && Criterion(k, CSource) in row && Criterion(k, CSource) in after
    && after[Criterion(k, CSource)] == if Reevaluates(row, k, patch) then source else row[Criterion(k, CSource)]
  }

  ghost predicate Reevaluates(row: Row, k: Id, patch: Row) {
    exists f :: f in patch && f in row && patch[f] != row[f] && f != Criterion(k, CDescription)
  }

  lemma DiffEvaluates(row: Row, k: Id, patch: Row)
    requires CriterionPatchOk(k, patch)
    ensures (exists c :: c in Diff(CriterionFields(k), row, patch) && c.field != Criterion(k, CDescription)) <==> Reevaluates(row, k, patch)
  {
    var diff := Diff(CriterionFields(k), row, patch);
    DiffFields(CriterionFields(k), row, patch);
    DiffIsProper(CriterionFields(k), row, patch);
    DiffAfter(CriterionFields(k), row, patch);
    if c :| c in diff && c.field != Criterion(k, CDescription) {
      var i :| 0 <= i < |diff| && diff[i] == c;
      assert patch[c.field] != row[c.field];
    }
    if f :| f in patch && f in row && patch[f] != row[f] && f != Criterion(k, CDescription) {
      var i :| 0 <= i < |diff| && diff[i].field == f;
      assert diff[i] in diff;
    }
  }

  /** The diff has a change to the patched value for every compared column that differs. */
  lemma {:induction false} DiffAfter(fields: seq<Field>, row: Row, patch: Row)
    ensures forall i :: 0 <= i < |Diff(fields, row, patch)| ==>
              var c := Diff(fields, row, patch)[i]; c.field in patch && c.after == patch[c.field]
    ensures forall f :: f in fields && f in patch && f in row && row[f] != patch[f] ==>
              exists i :: 0 <= i < |Diff(fields, row, patch)| && Diff(fields, row, patch)[i].field == f
  {
    if fields != [] {
      var n := |fields| - 1;
      DiffAfter(fields[..n], row, patch);
      assert fields == fields[..n] + [fields[n]];
      var most, all := Diff(fields[..n], row, patch), Diff(fields, row, patch);
      forall f | f in fields && f in patch && f in row && row[f] != patch[f]
        ensures exists i :: 0 <= i < |all| && all[i].field == f
      {
        if f == fields[n] {
          assert all[|most|].field == f;
        } else {
          var i :| 0 <= i < |most| && most[i].field == f;
          assert all[i].field == f;
        }
      }
    }
  }

  lemma ComparedCriterion(row: Row, k: Id, patch: Row)
    requires CriterionPatchOk(k, patch)
    ensures var after := Advance(row, Diff(CriterionFields(k), row, patch));
            && after.Keys == row.Keys
            && (forall f :: f in row ==> after[f] == if f in patch then patch[f] else row[f])
            && (Criterion(k, CSource) !in patch)
  {
    AdvanceDiff(CriterionFields(k), row, patch);
    assert forall f :: f in patch ==> f in CriterionFields(k);
    assert Criterion(k, CSource) !in CriterionFields(k);
  }

  lemma CriterionColumnsUpdated(row: Row, k: Id, patch: Row, source: Value)
    requires CriterionPatchOk(k, patch) && Criterion(k, CSource) in row
    ensures UpdatedCriterion(row, k, patch, source, Advance(row, CriterionChanges(row, k, patch, source)))
  {
    DiffEvaluates(row, k, patch);
    ComparedCriterion(row, k, patch);
    AdvanceMore(row, Diff(CriterionFields(k), row, patch),
                Change(Criterion(k, CSource), Col(row, Criterion(k, CSource)), source));
  }

  lemma AdvanceMore(row: Row, changes: seq<Change>, change: Change)
    ensures Advance(row, changes + [change]) == Advance(row, changes)[change.field := change.after]
  {
    assert (changes + [change])[..|changes|] == changes;
  }

  lemma UpdateCriterionOutcome(w: World, c: Command)
    requires c.UpdateCriterion? && Execute(w, c).Ok?
    ensures var w' := Execute(w, c).value;
            && c.goal in w.rows && c.goal in w'.rows && w'.rows == w.rows[c.goal := w'.rows[c.goal]] && OnlyRows(w, w')
            && UpdatedCriterion(w.rows[c.goal], c.criterion, c.patch, c.source, w'.rows[c.goal])
            && exists changes, at :: LogsOne(w, w', Event(CriterionUpdated, c.goal, changes, None, at), c.now) && changes != []
  {
    var w' := Execute(w, c).value;
    var changes := CriterionChanges(w.rows[c.goal], c.criterion, c.patch, c.source);
    CriterionColumnsUpdated(w.rows[c.goal], c.criterion, c.patch, c.source);
    assert LogsOne(w, w', Event(CriterionUpdated, c.goal, changes, None, w'.lastEventAt.value), c.now);
  }

  /** Refused when the criterion is not there, and when nothing of it changes. */
  lemma UpdateCriterionRefused(w: World, c: Command)
    requires c.UpdateCriterion? && CriterionPatchOk(c.criterion, c.patch)
    ensures Execute(w, c) == Err(NotFound) <==>
              !(Present(w, c.goal, Goal) && Criterion(c.criterion, CSource) in w.rows[c.goal])
    ensures Execute(w, c) == Err(NothingChanged) <==>
              && Present(w, c.goal, Goal) && Criterion(c.criterion, CSource) in w.rows[c.goal]
              && forall f :: f in c.patch && f in w.rows[c.goal] ==> c.patch[f] == w.rows[c.goal][f]
    ensures Execute(w, c).Ok? || Execute(w, c).error in {NotFound, NothingChanged}
  {
    if Present(w, c.goal, Goal) && Criterion(c.criterion, CSource) in w.rows[c.goal] {
      CriterionUnchangedIff(w.rows[c.goal], c.criterion, c.patch);
    }
  }

  lemma CriterionUnchangedIff(row: Row, k: Id, patch: Row)
    requires CriterionPatchOk(k, patch)
    ensures Diff(CriterionFields(k), row, patch) == [] <==> forall f :: f in patch && f in row ==> patch[f] == row[f]
  {
    var diff := Diff(CriterionFields(k), row, patch);
    DiffAfter(CriterionFields(k), row, patch);
    DiffIsProper(CriterionFields(k), row, patch);
    if diff != [] {
      assert diff[0].field in patch && patch[diff[0].field] != row[diff[0].field];
    }
  }

  // ----- decisions

  /** A new decision is stored as given; the one it replaces was active, is superseded now and
      names its successor. Each gets its event, the replaced one first. */
  lemma CreateDecisionOutcome(w: World, c: Command)
    requires c.CreateDecision? && Execute(w, c).Ok?
    ensures var w' := Execute(w, c).value;
            && c.id !in w.entities && w'.rows == w.rows && w'.deps == w.deps
            && c.id in w'.entities && w'.entities[c.id].kind == Decision
            && c.id in w'.decisions && w'.decisions[c.id].supersedes == c.supersedes
            && (forall d :: d in w.decisions && d != c.id && c.supersedes != Some(d) ==> d in w'.decisions && w'.decisions[d] == w.decisions[d])
            && (forall e :: e in w.entities && c.supersedes != Some(e) ==> e in w'.entities && w'.entities[e] == w.entities[e])
            && (c.supersedes.None? ==>
                  && w'.decisions[c.id].status == c.status && w'.entities[c.id].supersededBy.None?
                  && exists at :: LogsOne(w, w', Event(DecisionCreated, c.id, [], None, at), c.now))
  {
    var w' := Execute(w, c).value;
    if c.supersedes.None? {
      assert LogsOne(w, w', Event(DecisionCreated, c.id, [], None, w'.lastEventAt.value), c.now);
    }
  }

  lemma SupersedingOutcome(w: World, c: Command)
    requires c.CreateDecision? && Execute(w, c).Ok? && c.supersedes.Some?
    ensures var p := c.supersedes.value;
            && c.status == DActive && p in w.entities && w.entities[p] == Entity(Decision, None) && p != c.id
            && p in w.decisions && w.decisions[p].status == DActive
    ensures var w', p := Execute(w, c).value, c.supersedes.value;
            && p in w'.entities && w'.entities[p] == Entity(Decision, Some(c.id)) && w'.entities[c.id] == Entity(Decision, None)
            && p in w'.decisions && w'.decisions[p].status == DSuperseded && w'.decisions[p].supersedes == w.decisions[p].supersedes
            && w'.decisions[c.id].status == DActive
            && |w'.events| == |w.events| + 2 && w'.events[..|w.events|] == w.events
            && w'.events[|w.events|].kind == DecisionSuperseded && w'.events[|w.events|].entity == p
            && w'.events[|w.events| + 1].kind == DecisionCreated && w'.events[|w.events| + 1].entity == c.id
            && w'.events[|w.events|].at < w'.events[|w.events| + 1].at
  {
  }

  /** Only an active decision can be replaced, and only by an active one. */
  lemma CreateDecisionRefused(w: World, c: Command)
    requires c.CreateDecision? && c.id !in w.entities
    ensures Execute(w, c).Ok? <==>
              c.supersedes.None?
              || (c.status == DActive && IsDecision(w, c.supersedes.value) && w.decisions[c.supersedes.value].status == DActive)
    ensures Execute(w, c) == Err(NotFound) <==>
              c.supersedes.Some? && c.status == DActive && !IsDecision(w, c.supersedes.value)
    ensures Execute(w, c).Ok? || Execute(w, c).error in {NotFound, NotActiveDecision}
  {
  }

  predicate IsDecision(w: World, id: Id) {
    id in w.entities && w.entities[id] == Entity(Decision, None) && id in w.decisions
  }

  lemma RevokeDecisionOutcome(w: World, c: Command)
    requires c.RevokeDecision?
    ensures Execute(w, c).Ok? <==> IsDecision(w, c.id) && w.decisions[c.id].status == DActive
    ensures Execute(w, c) == Err(NotFound) <==> !IsDecision(w, c.id)
    ensures Execute(w, c) == Err(NotActiveDecision) <==> IsDecision(w, c.id) && w.decisions[c.id].status != DActive
    ensures Execute(w, c).Ok? ==>
              var w' := Execute(w, c).value;
              && w'.entities == w.entities && w'.rows == w.rows && w'.deps == w.deps
              && w'.decisions == w.decisions[c.id := DecisionRow(DRevoked, w.decisions[c.id].supersedes)]
              && exists at :: LogsOne(w, w', Event(DecisionRevoked, c.id, [], None, at), c.now)
  {
    if Execute(w, c).Ok? {
      var w' := Execute(w, c).value;
      assert LogsOne(w, w', Event(DecisionRevoked, c.id, [], None, w'.lastEventAt.value), c.now);
    }
  }

  // ----- undo

  /** Event `i` changed a row, and no undo has taken it back yet. */
  ghost predicate CanBeTakenBack(events: seq<Event>, entity: Option<Id>, i: nat) {
    && i < |events| && events[i].kind in {Updated, StatusChanged, Completed, Cancelled, CriterionUpdated}
    && (forall j :: 0 <= j < |events| ==> events[j].reverses != Some(i))
    && (entity.Some? ==> events[i].entity == entity.value)
  }

  lemma LatestIsNewest(events: seq<Event>, entity: Option<Id>)
    ensures match Latest(events, entity, |events|)
            case Some(t) => CanBeTakenBack(events, entity, t) && forall i: nat :: i > t ==> !CanBeTakenBack(events, entity, i)
            case None => forall i: nat :: !CanBeTakenBack(events, entity, i)
  {
    forall i: nat ensures CanBeTakenBack(events, entity, i) <==>
                          Live(events, i) && (entity.Some? ==> events[i].entity == entity.value)
    {
      if i < |events| {
        assert Reversed(events, i) <==> exists j :: 0 <= j < |events| && events[j].reverses == Some(i);
      }
    }
  }

  /** An undo takes back the newest event that changed the row, and records the changes the
      other way round. */
  lemma UndoOutcome(w: World, c: Command) returns (target: nat)
    requires c.Undo? && Execute(w, c).Ok?
    ensures CanBeTakenBack(w.events, c.entity, target) && forall i: nat :: i > target ==> !CanBeTakenBack(w.events, c.entity, i)
    ensures var w', id, changes := Execute(w, c).value, w.events[target].entity, w.events[target].changes;
            && id in w.rows && id in w'.rows && w'.rows == w.rows[id := w'.rows[id]] && OnlyRows(w, w')
            && w'.rows[id].Keys == w.rows[id].Keys
            && (forall f :: f in w.rows[id] && (forall i :: 0 <= i < |changes| ==> changes[i].field != f) ==>
                  w'.rows[id][f] == w.rows[id][f])
            && (forall i :: 0 <= i < |changes| && (forall j :: i < j < |changes| ==> changes[j].field != changes[i].field) ==>
                  changes[i].field in w'.rows[id] && w'.rows[id][changes[i].field] == changes[i].before)
    ensures var w', id := Execute(w, c).value, w.events[target].entity;
            exists event :: LogsOne(w, w', event, c.now) && event.kind == UndoApplied && event.entity == id
                            && event.reverses == Some(target) && TurnsRound(w.events[target].changes, event.changes)
  {
    var w' := Execute(w, c).value;
    LatestIsNewest(w.events, c.entity);
    target := Latest(w.events, c.entity, |w.events|).value;
    var id, changes := w.events[target].entity, w.events[target].changes;
    VerdictCoversParents(w, w.entities[id].kind, id, changes);
    RewindKeepsColumns(w.rows[id], changes);
    RewindRestores(w.rows[id], changes);
    ReverseTurnsRound(w.rows[id], changes);
    assert LogsOne(w, w', w'.events[|w.events|], c.now);
  }

  /** The same columns in the same order, each now leading back to its old value. */
  ghost predicate TurnsRound(changes: seq<Change>, reversed: seq<Change>) {
    && |reversed| == |changes|
    && forall i :: 0 <= i < |changes| ==> reversed[i].field == changes[i].field && reversed[i].after == changes[i].before
  }

  lemma {:induction false} ReverseTurnsRound(row: Row, changes: seq<Change>)
    ensures TurnsRound(changes, ReverseChanges(row, changes))
  {
    if changes != [] {
      ReverseTurnsRound(row, changes[..|changes| - 1]);
    }
  }

  lemma {:induction false} RewindLeaves(row: Row, changes: seq<Change>, f: Field)
    requires f in row && forall i :: 0 <= i < |changes| ==> changes[i].field != f
    ensures f in Rewind(row, changes) && Rewind(row, changes)[f] == row[f]
  {
    if changes != [] {
      RewindLeaves(row, changes[..|changes| - 1], f);
    }
  }

  lemma {:induction false} RewindSets(row: Row, changes: seq<Change>, i: nat)
    requires i < |changes| && forall j :: i < j < |changes| ==> changes[j].field != changes[i].field
    ensures changes[i].field in Rewind(row, changes) && Rewind(row, changes)[changes[i].field] == changes[i].before
  {
    var n := |changes| - 1;
    if i < n {
      assert changes[..n][i] == changes[i];
      RewindSets(row, changes[..n], i);
    }
  }

  /** Every changed column has the oldest value its last change names, every other its own. */
  lemma RewindRestores(row: Row, changes: seq<Change>)
    ensures forall f :: f in row && (forall i :: 0 <= i < |changes| ==> changes[i].field != f) ==>
              f in Rewind(row, changes) && Rewind(row, changes)[f] == row[f]
    ensures forall i :: 0 <= i < |changes| && (forall j :: i < j < |changes| ==> changes[j].field != changes[i].field) ==>
              changes[i].field in Rewind(row, changes) && Rewind(row, changes)[changes[i].field] == changes[i].before
  {
    forall f | f in row && (forall i :: 0 <= i < |changes| ==> changes[i].field != f)
      ensures f in Rewind(row, changes) && Rewind(row, changes)[f] == row[f]
    {
      RewindLeaves(row, changes, f);
    }
    forall i | 0 <= i < |changes| && (forall j :: i < j < |changes| ==> changes[j].field != changes[i].field)
      ensures changes[i].field in Rewind(row, changes) && Rewind(row, changes)[changes[i].field] == changes[i].before
    {
      RewindSets(row, changes, i);
    }
  }

  /** There is nothing to undo exactly when no event on the entity changed a row that no undo
      has taken back yet. */
  lemma UndoRefused(w: World, c: Command)
    requires c.Undo? && (forall i :: 0 <= i < |w.events| ==> w.events[i].entity in w.entities)
    ensures Execute(w, c) == Err(NothingToUndo) <==>
              && (c.entity.Some? ==> c.entity.value in w.entities && w.entities[c.entity.value].supersededBy.None?)
              && forall i: nat :: !CanBeTakenBack(w.events, c.entity, i)
  {
    LatestIsNewest(w.events, c.entity);
    if Latest(w.events, c.entity, |w.events|).Some? {
      var target := Latest(w.events, c.entity, |w.events|).value;
      VerdictErrors(w, w.entities[w.events[target].entity].kind, w.events[target].entity, w.events[target].changes);
    }
  }

  lemma {:induction false} VerdictErrors(w: World, kind: Kind, id: Id, changes: seq<Change>)
    ensures id in w.rows && ChangesVerdict(w, kind, id, changes).Some? ==>
              ChangesVerdict(w, kind, id, changes).value in {NotReversible, NotFound, Cycle}
  {
    if id in w.rows && changes != [] {
      VerdictErrors(w, kind, id, changes[..|changes| - 1]);
    }
  }
}
