/** Every reachable World State keeps its parent relations as forests, its dependency
    relation as a DAG, and decision supersession as disjoint, mutually linked chains. */
module WorldGraphs {
  import opened Basics
  import opened Graphs
  import opened WorldModel
  import opened WorldSpec

  /** Typed rows belong to entities of a kind that has rows; parents are active rows of that kind. */
  ghost predicate RowsOk(w: World) {
    && (forall id :: id in w.rows ==> id in w.entities && w.entities[id].kind != Decision)
    && (forall id :: id in w.decisions <==> id in w.entities && w.entities[id].kind == Decision)
    && (forall id :: id in w.rows && ParentOf(w, id).Ref? ==> ActiveRow(w, ParentOf(w, id).id, w.entities[id].kind))
    && (forall i :: 0 <= i < |w.events| ==> w.events[i].entity in w.entities)
  }

  ghost predicate ForestsOk(w: World) {
    forall kind :: Acyclic(ParentEdges(w, kind))
  }

  ghost predicate DependenciesOk(w: World) {
    && Acyclic(w.deps)
    && forall e :: e in w.deps ==> ActiveRow(w, e.0, Task) && ActiveRow(w, e.1, Task)
  }

  /** `supersedes` and `superseded_by` are inverse, and only decisions are superseded. */
  ghost predicate SupersessionOk(w: World) {
    && Acyclic(SupersedeEdges(w))
    && (forall id :: id in w.decisions && w.decisions[id].supersedes.Some? ==>
          var p := w.decisions[id].supersedes.value;
          && p in w.decisions && p in w.entities && w.decisions[p].status == DSuperseded
          && w.entities[p].supersededBy == Some(id))
    && (forall id :: id in w.entities && w.entities[id].supersededBy.Some? ==>
          var n := w.entities[id].supersededBy.value;
          && id in w.decisions && n in w.decisions && w.decisions[n].supersedes == Some(id))
  }

  ghost predicate GraphsOk(w: World) {
    RowsOk(w) && ForestsOk(w) && DependenciesOk(w) && SupersessionOk(w)
  }

  // ----- parents

  /** The same supersession links give the same edges, plus the new link if there is one. */
  lemma SupersedeEdgesAre(w: World, w': World, more: set<Edge>)
    requires forall a: Id, b: Id :: Superseded(w', a, b) <==> Superseded(w, a, b) || (a, b) in more
    ensures SupersedeEdges(w') == SupersedeEdges(w) + more
    ensures more == {} ==> SupersedeEdges(w') == SupersedeEdges(w)
  {
    forall e: Edge ensures e in SupersedeEdges(w') <==> e in SupersedeEdges(w) || e in more {
      assert (e.0, e.1) == e;
      assert e in SupersedeEdges(w') <==> Superseded(w', e.0, e.1);
      assert e in SupersedeEdges(w) <==> Superseded(w, e.0, e.1);
    }
  }

  predicate Superseded(w: World, a: Id, b: Id) {
    a in w.entities && w.entities[a].supersededBy == Some(b)
  }

  /** Writing one allowed parent: the child's old edge goes, the new one closes no cycle. */
  lemma ParentWriteKeepsForest(w: World, w': World, kind: Kind, child: Id, parent: Value)
    requires Acyclic(ParentEdges(w, kind)) && ParentVerdict(w, kind, child, parent).None?
    requires ParentEdges(w', kind) <= ParentEdges(w, kind) + (if parent.Ref? then {(child, parent.id)} else {})
    ensures Acyclic(ParentEdges(w', kind))
  {
    if parent.Ref? {
      AddEdge(ParentEdges(w, kind), child, parent.id);
      SubgraphAcyclic(ParentEdges(w', kind), ParentEdges(w, kind) + {(child, parent.id)});
    } else {
      SubgraphAcyclic(ParentEdges(w', kind), ParentEdges(w, kind));
    }
  }

  /** A row write that leaves every other row alone and gives `id` an allowed parent. */
  lemma RowWriteKeepsGraphs(w: World, w': World, id: Id, row: Row)
    requires GraphsOk(w) && id in w.rows
    requires w'.entities == w.entities && w'.rows == w.rows[id := row]
    requires w'.decisions == w.decisions && w'.deps == w.deps
    requires forall i :: 0 <= i < |w'.events| ==> w'.events[i].entity in w.entities
    requires var parent := ParentOf(w', id);
             parent == ParentOf(w, id) || ParentVerdict(w, w.entities[id].kind, id, parent).None?
    ensures GraphsOk(w')
  {
    var kind, parent := w.entities[id].kind, ParentOf(w', id);
    forall k ensures Acyclic(ParentEdges(w', k)) {
      if k == kind && parent != ParentOf(w, id) {
        ParentWriteKeepsForest(w, w', kind, id, parent);
      } else {
        SubgraphAcyclic(ParentEdges(w', k), ParentEdges(w, k));
      }
    }
    assert SupersedeEdges(w') == SupersedeEdges(w);
    forall other | other in w'.rows && ParentOf(w', other).Ref?
      ensures ActiveRow(w', ParentOf(w', other).id, w'.entities[other].kind)
    {
      if other != id { assert ParentOf(w', other) == ParentOf(w, other); }
    }
  }

  // ----- what row writes do to single columns

  /** An advance over a diff gives every compared column its patched value. */
  lemma {:induction false} AdvanceDiff(fields: seq<Field>, row: Row, patch: Row)
    ensures var after := Advance(row, Diff(fields, row, patch));
            && after.Keys == row.Keys
            && forall f :: f in row ==> after[f] == if f in fields && f in patch then patch[f] else row[f]
  {
    if fields != [] {
      var n := |fields| - 1;
      AdvanceDiff(fields[..n], row, patch);
      assert fields == fields[..n] + [fields[n]];
      var most := Diff(fields[..n], row, patch);
      assert forall c :: (most + [c])[..|most|] == most;
    }
  }

  lemma {:induction false} AdvanceConcat(row: Row, a: seq<Change>, b: seq<Change>)
    ensures Advance(row, a + b) == Advance(Advance(row, a), b)
  {
    if b == [] {
      assert a + b == a;
    } else {
      var n := |b| - 1;
      AdvanceConcat(row, a, b[..n]);
      assert (a + b)[..|a + b| - 1] == a + b[..n];
    }
  }

  lemma {:induction false} AdvanceLeavesOthers(row: Row, changes: seq<Change>, f: Field)
    requires forall c :: c in changes ==> c.field != f
    ensures (f in Advance(row, changes) <==> f in row) && (f in row ==> Advance(row, changes)[f] == row[f])
  {
    if changes != [] {
      AdvanceLeavesOthers(row, changes[..|changes| - 1], f);
    }
  }

  /** A rewound column holds its current value or one that some change recorded as the old one. */
  lemma {:induction false} RewindColumn(row: Row, changes: seq<Change>, f: Field)
    requires f in row
    ensures f in Rewind(row, changes)
    ensures Rewind(row, changes)[f] == row[f] || exists c :: c in changes && c.field == f && c.before == Rewind(row, changes)[f]
  {
    if changes != [] {
      RewindColumn(row, changes[..|changes| - 1], f);
    }
  }

  lemma {:induction false} VerdictCoversParents(w: World, kind: Kind, id: Id, changes: seq<Change>)
    requires id in w.rows && ChangesVerdict(w, kind, id, changes).None?
    ensures Reversible(w.rows[id], changes)
    ensures forall c :: c in changes && c.field == Parent ==> ParentVerdict(w, kind, id, c.before).None?
  {
    if changes != [] {
      VerdictCoversParents(w, kind, id, changes[..|changes| - 1]);
    }
  }

  lemma DiffFields(fields: seq<Field>, row: Row, patch: Row)
    ensures forall c :: c in Diff(fields, row, patch) ==> c.field in fields && c.field in patch && c.field in row
  {
  }

  lemma SingleAdvance(row: Row, changes: seq<Change>)
    requires |changes| <= 1
    ensures Advance(row, changes) == if changes == [] then row else row[changes[0].field := changes[0].after]
  {
    assert changes != [] ==> changes[..0] == [];
  }

  lemma ComparedColumns(kind: Kind, row: Row, patch: Row)
    ensures var after := Advance(row, Diff(OrderedFields(kind), row, patch));
            && after.Keys == row.Keys
            && forall f :: f in row ==> after[f] == if HasColumn(kind, f) && f in patch then patch[f] else row[f]
  {
    OrderedFieldsAreColumns(kind);
    AdvanceDiff(OrderedFields(kind), row, patch);
  }

  /** After an update, a written column holds its patched value and the completion
      column follows the status. */
  lemma UpdatedColumns(kind: Kind, row: Row, patch: Row, now: Time)
    requires CompletedAt in row
    ensures var after := Advance(row, UpdateChanges(kind, row, patch, now));
            && after.Keys == row.Keys
            && (forall f :: f in row && f != CompletedAt ==>
                  after[f] == if HasColumn(kind, f) && f in patch then patch[f] else row[f])
            && after[CompletedAt] == CompletionAfter(kind, row, StatusAfter(row, patch), now)
  {
    var diff := Diff(OrderedFields(kind), row, patch);
    var completion := CompletionChange(kind, row, StatusAfter(row, patch), now);
    ComparedColumns(kind, row, patch);
    AdvanceConcat(row, diff, completion);
    SingleAdvance(Advance(row, diff), completion);
  }

  // ----- one command

  /** A new row hangs below an existing parent, or is a root. */
  lemma InsertKeepsForests(w: World, w': World, id: Id, kind: Kind, row: Row)
    requires GraphsOk(w) && id !in w.entities
    requires w'.entities == w.entities[id := Entity(kind, None)] && w'.rows == w.rows[id := row]
    requires Parent in row && (row[Parent].Ref? ==> ActiveRow(w, row[Parent].id, kind))
    ensures ForestsOk(w')
  {
    forall k ensures Acyclic(ParentEdges(w', k)) {
      var edges := ParentEdges(w, k);
      if k == kind && row[Parent].Ref? {
        SourceIsUnreachable(edges, row[Parent].id, id);
        AddEdge(edges, id, row[Parent].id);
        SubgraphAcyclic(ParentEdges(w', k), edges + {(id, row[Parent].id)});
      } else {
        SubgraphAcyclic(ParentEdges(w', k), edges);
      }
    }
  }

  lemma InsertKeepsDependencies(w: World, id: Id, kind: Kind, row: Row, prerequisites: seq<Id>)
    requires GraphsOk(w) && id !in w.entities
    requires prerequisites != [] ==> kind == Task
    requires forall p :: p in prerequisites ==> ActiveRow(w, p, Task)
    ensures DependenciesOk(w.(entities := w.entities[id := Entity(kind, None)], rows := w.rows[id := row],
                              deps := w.deps + IncomingEdges(prerequisites, id)))
  {
    AddEdgesIntoSink(w.deps, w.deps + IncomingEdges(prerequisites, id), id);
  }

  lemma InsertKeepsRows(w: World, id: Id, kind: Kind, row: Row)
    requires GraphsOk(w) && id !in w.entities && kind != Decision
    requires Parent in row && (row[Parent].Ref? ==> ActiveRow(w, row[Parent].id, kind))
    ensures var w' := w.(entities := w.entities[id := Entity(kind, None)], rows := w.rows[id := row]);
            RowsOk(w') && SupersessionOk(w')
  {
    var w' := w.(entities := w.entities[id := Entity(kind, None)], rows := w.rows[id := row]);
    SupersedeEdgesAre(w, w', {});
    forall other | other in w'.rows && ParentOf(w', other).Ref?
      ensures ActiveRow(w', ParentOf(w', other).id, w'.entities[other].kind)
    {
      if other != id { assert ParentOf(w', other) == ParentOf(w, other); }
    }
  }

  /** An event on an existing entity changes no relation. */
  lemma AppendKeepsGraphs(w: World, kind: EventKind, id: Id, changes: seq<Change>, reverses: Option<nat>, now: Time)
    requires GraphsOk(w) && id in w.entities
    ensures GraphsOk(Append(w, kind, id, changes, reverses, now))
  {
    var w' := Append(w, kind, id, changes, reverses, now);
    assert SupersedeEdges(w') == SupersedeEdges(w);
    assert forall k :: ParentEdges(w', k) == ParentEdges(w, k);
    assert forall other :: ParentOf(w', other) == ParentOf(w, other);
  }

  /** Writing only the dependency relation. */
  lemma DepsWriteKeepsGraphs(w: World, w': World)
    requires RowsOk(w) && ForestsOk(w) && SupersessionOk(w) && DependenciesOk(w')
    requires w' == w.(deps := w'.deps)
    ensures GraphsOk(w')
  {
    assert SupersedeEdges(w') == SupersedeEdges(w);
    assert forall k :: ParentEdges(w', k) == ParentEdges(w, k);
    assert forall other :: ParentOf(w', other) == ParentOf(w, other);
  }

  lemma CreateRowKeepsGraphs(w: World, c: Command)
    requires GraphsOk(w) && c.CreateRow? && Execute(w, c).Ok?
    ensures GraphsOk(Execute(w, c).value)
  {
    var id, row := c.id, NewRow(c.kind, c.fields, c.criteria, c.now);
    assert HasColumn(c.kind, Parent) && row[Parent] == c.fields[Parent];
    var inserted := w.(entities := w.entities[id := Entity(c.kind, None)], rows := w.rows[id := row]);
    var linked := inserted.(deps := w.deps + IncomingEdges(c.prerequisites, id));
    InsertKeepsForests(w, inserted, id, c.kind, row);
    InsertKeepsDependencies(w, id, c.kind, row, c.prerequisites);
    InsertKeepsRows(w, id, c.kind, row);
    DepsWriteKeepsGraphs(inserted, linked);
    AppendKeepsGraphs(linked, Created, id, [], None, c.now);
  }

  lemma UpdateRowKeepsGraphs(w: World, c: Command)
    requires GraphsOk(w) && c.UpdateRow? && Execute(w, c).Ok?
    ensures GraphsOk(Execute(w, c).value)
  {
    var row := w.rows[c.id];
    var ruled := WithDateRule(row, c.patch).value;
    var changes := UpdateChanges(c.kind, row, ruled, c.now);
    var after := Advance(row, changes);
    UpdatedParent(c.kind, row, ruled, c.now);
    var written := w.(rows := w.rows[c.id := after]);
    RowWriteKeepsGraphs(w, written, c.id, after);
    AppendKeepsGraphs(written, UpdateEventKind(c.kind, Col(row, Status), Col(after, Status)), c.id, changes, None, c.now);
  }

  lemma UpdatedParent(kind: Kind, row: Row, patch: Row, now: Time)
    ensures var after := Advance(row, UpdateChanges(kind, row, patch, now));
            Col(after, Parent) == Col(row, Parent) || (Parent in patch && Col(after, Parent) == patch[Parent])
  {
    var fields := OrderedFields(kind);
    var completion := CompletionChange(kind, row, StatusAfter(row, patch), now);
    AdvanceDiff(fields, row, patch);
    AdvanceConcat(row, Diff(fields, row, patch), completion);
    SingleAdvance(Advance(row, Diff(fields, row, patch)), completion);
  }

  /** A criterion update leaves the parent alone. */
  lemma CriterionKeepsParent(row: Row, criterion: Id, patch: Row, source: Value)
    ensures var after := Advance(row, CriterionChanges(row, criterion, patch, source));
            (Parent in after <==> Parent in row) && (Parent in row ==> after[Parent] == row[Parent])
  {
    DiffFields(CriterionFields(criterion), row, patch);
    AdvanceLeavesOthers(row, CriterionChanges(row, criterion, patch, source), Parent);
  }

  lemma UpdateCriterionKeepsGraphs(w: World, c: Command)
    requires GraphsOk(w) && c.UpdateCriterion? && Execute(w, c).Ok?
    ensures GraphsOk(Execute(w, c).value)
  {
    var row := w.rows[c.goal];
    var changes := CriterionChanges(row, c.criterion, c.patch, c.source);
    var after := Advance(row, changes);
    CriterionKeepsParent(row, c.criterion, c.patch, c.source);
    RowWriteKeepsGraphs(w, w.(rows := w.rows[c.goal := after]), c.goal, after);
    AppendKeepsGraphs(w.(rows := w.rows[c.goal := after]), CriterionUpdated, c.goal, changes, None, c.now);
  }

  /** Undo restores an old parent only after validating it against the present forest,
      whichever event it takes back. */
  lemma UndoEventKeepsGraphs(w: World, target: nat, now: Time)
    requires GraphsOk(w) && target < |w.events| && UndoEvent(w, target, now).Ok?
    ensures GraphsOk(UndoEvent(w, target, now).value)
  {
    var id, changes := w.events[target].entity, w.events[target].changes;
    var row := w.rows[id];
    var after := Rewind(row, changes);
    VerdictCoversParents(w, w.entities[id].kind, id, changes);
    if Parent in row {
      RewindColumn(row, changes, Parent);
    } else {
      RewindKeepsColumns(row, changes);
    }
    RowWriteKeepsGraphs(w, w.(rows := w.rows[id := after]), id, after);
    AppendKeepsGraphs(w.(rows := w.rows[id := after]), UndoApplied, id, ReverseChanges(row, changes), Some(target), now);
  }

  lemma UndoKeepsGraphs(w: World, c: Command)
    requires GraphsOk(w) && c.Undo? && Execute(w, c).Ok?
    ensures GraphsOk(Execute(w, c).value)
  {
    UndoEventKeepsGraphs(w, Latest(w.events, c.entity, |w.events|).value, c.now);
  }

  lemma {:induction false} RewindKeepsColumns(row: Row, changes: seq<Change>)
    requires Reversible(row, changes)
    ensures Rewind(row, changes).Keys == row.Keys
  {
    if changes != [] {
      var n := |changes| - 1;
      assert Reversible(row, changes[..n]);
      RewindKeepsColumns(row, changes[..n]);
      assert changes[n] in changes;
    }
  }

  /** Writing decisions and their identities leaves every row relation alone. */
  lemma DecisionWriteKeepsRows(w: World, w': World)
    requires GraphsOk(w) && w'.rows == w.rows && w'.deps == w.deps && w'.events == w.events
    requires forall id :: id in w.entities ==>
               && id in w'.entities && w'.entities[id].kind == w.entities[id].kind
               && (w.entities[id].kind != Decision ==> w'.entities[id] == w.entities[id])
    requires forall id :: id in w'.entities && id !in w.entities ==> w'.entities[id].kind == Decision
    requires forall id :: id in w'.decisions <==> id in w'.entities && w'.entities[id].kind == Decision
    ensures RowsOk(w') && ForestsOk(w') && DependenciesOk(w')
  {
    assert forall k :: ParentEdges(w', k) == ParentEdges(w, k);
    assert forall other :: ParentOf(w', other) == ParentOf(w, other);
  }

  /** What superseding writes. */
  ghost predicate Supersedes(w: World, w': World, id: Id, previous: Id, status: DecisionStatus) {
    && id !in w.entities && previous in w.decisions && previous in w.entities
    && w.entities[previous] == Entity(Decision, None) && w.decisions[previous].status == DActive
    && w' == w.(entities := w.entities[id := Entity(Decision, None)][previous := Entity(Decision, Some(id))],
                decisions := w.decisions[id := DecisionRow(status, Some(previous))]
                                        [previous := w.decisions[previous].(status := DSuperseded)])
  }

  lemma SupersedeKeepsAcyclic(w: World, w': World, id: Id, previous: Id, status: DecisionStatus)
    requires GraphsOk(w) && Supersedes(w, w', id, previous, status)
    ensures Acyclic(SupersedeEdges(w'))
  {
    var edges := SupersedeEdges(w);
    SupersedeEdgesAre(w, w', {(previous, id)});
    if Reaches(edges, id, previous) {
      SinkReachesOnlyItself(edges, id, previous);
    }
    AddEdge(edges, previous, id);
  }

  lemma SupersedeKeepsLinks(w: World, w': World, id: Id, previous: Id, status: DecisionStatus)
    requires GraphsOk(w) && Supersedes(w, w', id, previous, status) && Acyclic(SupersedeEdges(w'))
    ensures SupersessionOk(w')
  {
  }

  /** Superseding an active decision appends it to the end of its chain. */
  lemma SupersedeKeepsGraphs(w: World, w': World, id: Id, previous: Id, status: DecisionStatus)
    requires GraphsOk(w) && Supersedes(w, w', id, previous, status)
    ensures GraphsOk(w')
  {
    SupersedeKeepsAcyclic(w, w', id, previous, status);
    SupersedeKeepsLinks(w, w', id, previous, status);
    DecisionWriteKeepsRows(w, w');
  }

  lemma PlainDecisionKeepsGraphs(w: World, w': World, id: Id, status: DecisionStatus)
    requires GraphsOk(w) && id !in w.entities
    requires w' == w.(entities := w.entities[id := Entity(Decision, None)],
                      decisions := w.decisions[id := DecisionRow(status, None)])
    ensures GraphsOk(w')
  {
    SupersedeEdgesAre(w, w', {});
    DecisionWriteKeepsRows(w, w');
  }

  lemma CreateDecisionKeepsGraphs(w: World, c: Command)
    requires GraphsOk(w) && c.CreateDecision? && Execute(w, c).Ok?
    ensures GraphsOk(Execute(w, c).value)
  {
    var created := w.(entities := w.entities[c.id := Entity(Decision, None)],
                      decisions := w.decisions[c.id := DecisionRow(c.status, c.supersedes)]);
    if c.supersedes.None? {
      PlainDecisionKeepsGraphs(w, created, c.id, c.status);
      AppendKeepsGraphs(created, DecisionCreated, c.id, [], None, c.now);
    } else {
      var previous := c.supersedes.value;
      var retired := created.(entities := created.entities[previous := Entity(Decision, Some(c.id))],
                              decisions := created.decisions[previous := w.decisions[previous].(status := DSuperseded)]);
      SupersedeKeepsGraphs(w, retired, c.id, previous, c.status);
      AppendKeepsGraphs(retired, DecisionSuperseded, previous, [], None, c.now);
      AppendKeepsGraphs(Append(retired, DecisionSuperseded, previous, [], None, c.now), DecisionCreated, c.id, [], None, c.now);
    }
  }

  lemma RevokeKeepsGraphs(w: World, c: Command)
    requires GraphsOk(w) && c.RevokeDecision? && Execute(w, c).Ok?
    ensures GraphsOk(Execute(w, c).value)
  {
    var revoked := w.(decisions := w.decisions[c.id := w.decisions[c.id].(status := DRevoked)]);
    assert SupersedeEdges(revoked) == SupersedeEdges(w);
    DecisionWriteKeepsRows(w, revoked);
    AppendKeepsGraphs(revoked, DecisionRevoked, c.id, [], None, c.now);
  }

  lemma AddDependencyKeepsGraphs(w: World, c: Command)
    requires GraphsOk(w) && c.AddDependency? && Execute(w, c).Ok?
    ensures GraphsOk(Execute(w, c).value)
  {
    if (c.prerequisite, c.dependent) !in w.deps {
      AddEdge(w.deps, c.prerequisite, c.dependent);
      var linked := w.(deps := w.deps + {(c.prerequisite, c.dependent)});
      DepsWriteKeepsGraphs(w, linked);
      AppendKeepsGraphs(linked, RelationCreated, c.dependent, [], None, c.now);
    }
  }

  lemma ExecuteKeepsGraphs(w: World, c: Command)
    requires GraphsOk(w) && Execute(w, c).Ok?
    ensures GraphsOk(Execute(w, c).value)
  {
    match c {
      case CreateRow(_, _, _, _, _, _) => CreateRowKeepsGraphs(w, c);
      case UpdateRow(_, _, _, _) => UpdateRowKeepsGraphs(w, c);
      case UpdateCriterion(_, _, _, _, _) => UpdateCriterionKeepsGraphs(w, c);
      case CreateDecision(_, _, _, _) => CreateDecisionKeepsGraphs(w, c);
      case RevokeDecision(_, _) => RevokeKeepsGraphs(w, c);
      case AddDependency(_, _, _) => AddDependencyKeepsGraphs(w, c);
      case Relate(id, now) => AppendKeepsGraphs(w, RelationCreated, id, [], None, now);
      case Undo(_, _) => UndoKeepsGraphs(w, c);
    }
  }

  /** Every reachable World State: parents are forests, dependencies a DAG, supersession
      chains acyclic and linked in both directions. */
  lemma {:induction false} ReachableGraphsOk(commands: seq<Command>)
    ensures GraphsOk(Run(commands))
    decreases |commands|
  {
    if commands == [] {
      assert forall k :: ParentEdges(EMPTY, k) == {};
      assert SupersedeEdges(EMPTY) == {};
      RankedIsAcyclic({}, map[]);
    } else {
      var most := commands[..|commands| - 1];
      ReachableGraphsOk(most);
      if Execute(Run(most), commands[|commands| - 1]).Ok? {
        ExecuteKeepsGraphs(Run(most), commands[|commands| - 1]);
      }
    }
  }
}
