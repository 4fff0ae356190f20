/** Undoing an update at once: in every run it is accepted and gives back the rows that were
    there before the update. */
module WorldRoundTrip {
  import opened Basics
  import opened Graphs
  import opened WorldModel
  import opened WorldSpec
  import opened WorldGraphs
  import opened WorldUndo
  import opened WorldOutcomes

  /** An undo whose columns exist and whose old parents fit is not refused. */
  lemma {:induction false} NothingRefused(w: World, kind: Kind, id: Id, changes: seq<Change>)
    requires id in w.rows && forall i :: 0 <= i < |changes| ==> changes[i].field in w.rows[id]
    requires forall i :: 0 <= i < |changes| && changes[i].field == Parent ==> ParentVerdict(w, kind, id, changes[i].before).None?
    ensures ChangesVerdict(w, kind, id, changes).None?
  {
    if changes != [] {
      NothingRefused(w, kind, id, changes[..|changes| - 1]);
    }
  }

  /** The parent a row had fits it again once only that row has changed. */
  lemma OldParentFits(w: World, w': World, id: Id, row: Row)
    requires GraphsOk(w) && id in w.rows && Parent in w.rows[id]
    requires w'.entities == w.entities && w'.rows == w.rows[id := row]
    ensures ParentVerdict(w', w.entities[id].kind, id, w.rows[id][Parent]).None?
  {
    var kind, parent := w.entities[id].kind, w.rows[id][Parent];
    if parent.Ref? {
      var edges, after := ParentEdges(w, kind), ParentEdges(w', kind);
      assert ParentOf(w, id) == parent && (id, parent.id) in edges;
      forall e | e in after && e.0 != id ensures e in edges {
        assert ParentOf(w', e.0) == ParentOf(w, e.0);
      }
      OldTargetStaysAbove(edges, after, id, parent.id);
      if parent.id == id {
        ReachesSelf(after, id);
      }
    }
  }

  /** What an update of one row recorded can be taken back from the state it left. */
  lemma RecordedCanGoBack(w: World, w': World, id: Id, row: Row, changes: seq<Change>)
    requires GraphsOk(w) && id in w.rows && Parent in w.rows[id]
    requires w'.entities == w.entities && w'.rows == w.rows[id := row]
    requires forall i :: 0 <= i < |changes| ==>
               changes[i].field in row && changes[i].field in w.rows[id] && changes[i].before == w.rows[id][changes[i].field]
    ensures ChangesVerdict(w', w.entities[id].kind, id, changes).None?
  {
    OldParentFits(w, w', id, row);
    NothingRefused(w', w.entities[id].kind, id, changes);
  }

  lemma UndoAccepted(w: World, id: Id, target: nat, now: Time)
    requires target < |w.events| && w.events[target].entity == id && Latest(w.events, Some(id), |w.events|) == Some(target)
    requires id in w.entities && w.entities[id].supersededBy.None? && id in w.rows
    requires ChangesVerdict(w, w.entities[id].kind, id, w.events[target].changes).None?
    ensures Execute(w, Undo(Some(id), now)).Ok?
  {
  }

  lemma UpdateCanBeUndone(w: World, c: Command, now: Time)
    requires c.UpdateRow? && Execute(w, c).Ok? && GraphsOk(w) && RowsValid(w)
    requires var w' := Execute(w, c).value; Latest(w'.events, Some(c.id), |w'.events|) == Some(|w.events|)
    ensures Execute(Execute(w, c).value, Undo(Some(c.id), now)).Ok?
  {
    var w' := Execute(w, c).value;
    UpdateLogged(w, c);
    RecordedCanGoBack(w, w', c.id, w'.rows[c.id], w'.events[|w.events|].changes);
    UndoAccepted(w', c.id, |w.events|, now);
  }

  lemma UpdateLogged(w: World, c: Command)
    requires c.UpdateRow? && Execute(w, c).Ok? && GraphsOk(w) && RowsValid(w)
    ensures var w' := Execute(w, c).value;
            && |w'.events| == |w.events| + 1 && w'.events[|w.events|].entity == c.id
            && c.id in w.rows && Parent in w.rows[c.id] && w.entities[c.id] == Entity(c.kind, None)
            && w'.entities == w.entities && c.id in w'.rows && w'.rows == w.rows[c.id := w'.rows[c.id]]
            && forall i :: 0 <= i < |w'.events[|w.events|].changes| ==>
                 var change := w'.events[|w.events|].changes[i];
                 change.field in w'.rows[c.id] && change.field in w.rows[c.id] && change.before == w.rows[c.id][change.field]
  {
    UpdateOutcome(w, c);
    assert HasColumn(c.kind, Parent);
  }

  lemma NewestAfterUpdate(w: World, c: Command)
    requires LogOk(w) && c.UpdateRow? && Execute(w, c).Ok?
    ensures var w' := Execute(w, c).value;
            |w'.events| == |w.events| + 1 && Latest(w'.events, Some(c.id), |w'.events|) == Some(|w.events|)
  {
    var w' := Execute(w, c).value;
    var n := |w.events|;
    forall j | 0 <= j <= n ensures w'.events[j].reverses != Some(n) {
      if j < n { assert w'.events[j] == w.events[j]; }
    }
    assert Live(w'.events, n);
  }

  lemma OneMore(commands: seq<Command>, c: Command)
    requires Execute(Run(commands), c).Ok?
    ensures Run(commands + [c]) == Execute(Run(commands), c).value
    ensures TracedRun(commands + [c]) == TracedStep(TracedRun(commands), c) && TracedRun(commands).world == Run(commands)
  {
    assert (commands + [c])[..|commands|] == commands;
    TracedRunIsRun(commands);
  }

  /** The state recorded for the event of an update is the one the update found. */
  lemma RecordedForUpdate(t: Traced, c: Command)
    requires c.UpdateRow? && Execute(t.world, c).Ok? && |t.before| == |t.world.events|
    ensures |TracedStep(t, c).before| == |t.world.events| + 1 && TracedStep(t, c).before[|t.world.events|] == t.world
  {
  }

  /** Putting back the row that one update changed puts back all rows. */
  lemma RowsAreBack(rows: map<Id, Row>, id: Id, row: Row)
    requires id in rows
    ensures rows[id := row][id := rows[id]] == rows
  {
  }

  /** Any accepted update can be undone at once, and the undo gives back every row as it was. */
  lemma UpdateThenUndo(commands: seq<Command>, c: Command, now: Time)
    requires c.UpdateRow? && Execute(Run(commands), c).Ok?
    ensures var undone := Execute(Execute(Run(commands), c).value, Undo(Some(c.id), now));
            undone.Ok? && undone.value.rows == Run(commands).rows
  {
    var w := Run(commands);
    ReachableGraphsOk(commands);
    CompletionAndDeadlinesSurvive(commands);
    ReachableStacksOk(commands);
    NewestAfterUpdate(w, c);
    UpdateCanBeUndone(w, c, now);
    UpdateLogged(w, c);
    OneMore(commands, c);
    RecordedForUpdate(TracedRun(commands), c);
    UndoRestoresRow(commands + [c], Some(c.id), now);
    RowsAreBack(w.rows, c.id, Execute(w, c).value.rows[c.id]);
  }
}
