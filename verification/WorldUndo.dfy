/** Undo is a per-entity stack pop: an accepted undo gives the entity back exactly the
    row it had just before the event it reverses. */
module WorldUndo {
  import opened Basics
  import opened Graphs
  import opened WorldModel
  import opened WorldSpec
  import opened WorldGraphs

  /** A run together with, for every event of its log, the state just before the
      command that appended that event. */
  datatype Traced = Traced(world: World, before: seq<World>)

  function Record(before: seq<World>, w: World, n: nat): (r: seq<World>)
    ensures |r| == |before| + n && r[..|before|] == before
    ensures forall i :: |before| <= i < |r| ==> r[i] == w
    decreases n
  {
    if n == 0 then before else Record(before, w, n - 1) + [w]
  }

  ghost function Traces(t: Traced, w: World): Traced {
    Traced(w, Record(t.before, t.world, if |w.events| > |t.world.events| then |w.events| - |t.world.events| else 0))
  }

  ghost function TracedStep(t: Traced, c: Command): Traced {
    match Execute(t.world, c)
    case Err(_) => t
    case Ok(w) => Traces(t, w)
  }

  ghost function TracedRun(commands: seq<Command>): Traced
    decreases |commands|
  {
    if commands == [] then Traced(EMPTY, [])
    else TracedStep(TracedRun(commands[..|commands| - 1]), commands[|commands| - 1])
  }

  lemma {:induction false} TracedRunIsRun(commands: seq<Command>)
    ensures TracedRun(commands).world == Run(commands)
    decreases |commands|
  {
    if commands != [] {
      TracedRunIsRun(commands[..|commands| - 1]);
    }
  }

  // ----- the stack

  /** Rewinding the live events of `e` from the top gives, level by level, the row `e`
      had just before each of them. */
  ghost predicate Levels(row: Row, events: seq<Event>, before: seq<World>, e: Id, n: nat)
    requires n <= |events| && |events| == |before|
    decreases n
  {
    n == 0 ||
    (if LiveOn(events, e, n - 1)
     then var below := Rewind(row, events[n - 1].changes);
          && e in before[n - 1].rows && below == before[n - 1].rows[e]
          && Levels(below, events, before, e, n - 1)
     else Levels(row, events, before, e, n - 1))
  }

  lemma {:induction false} LevelsFrame(row: Row, events: seq<Event>, before: seq<World>, events': seq<Event>,
                                       before': seq<World>, e: Id, n: nat)
    requires |events| == |before| && |events'| == |before'| && n <= |events| <= |events'|
    requires events'[..|events|] == events && before'[..|events|] == before
    requires forall i :: 0 <= i < n ==> (LiveOn(events', e, i) <==> LiveOn(events, e, i))
    requires Levels(row, events, before, e, n)
    ensures Levels(row, events', before', e, n)
    decreases n
  {
    if n > 0 {
      assert events'[n - 1] == events'[..|events|][n - 1] && before'[n - 1] == before'[..|events|][n - 1];
      if LiveOn(events, e, n - 1) {
        LevelsFrame(Rewind(row, events[n - 1].changes), events, before, events', before', e, n - 1);
      } else {
        LevelsFrame(row, events, before, events', before', e, n - 1);
      }
    }
  }

  /** Events that are not live on `e` are no levels of its stack. */
  lemma {:induction false} SkipDead(row: Row, events: seq<Event>, before: seq<World>, e: Id, m: nat, n: nat)
    requires |events| == |before| && m <= n <= |events|
    requires forall i :: m <= i < n ==> !LiveOn(events, e, i)
    ensures Levels(row, events, before, e, n) <==> Levels(row, events, before, e, m)
    decreases n
  {
    if m < n {
      SkipDead(row, events, before, e, m, n - 1);
    }
  }

  /** Appending an event changes the liveness of at most the event it reverses. */
  lemma AppendLiveness(events: seq<Event>, event: Event, e: Id)
    ensures var events' := events + [event];
            forall i :: 0 <= i < |events| ==>
              (LiveOn(events', e, i) <==> LiveOn(events, e, i) && event.reverses != Some(i))
  {
    var events' := events + [event];
    forall i | 0 <= i < |events| ensures Reversed(events', i) <==> Reversed(events, i) || event.reverses == Some(i) {
      if Reversed(events, i) {
        var j :| 0 <= j < |events| && events[j].reverses == Some(i);
        assert events'[j].reverses == Some(i);
      }
      if event.reverses == Some(i) {
        assert events'[|events|].reverses == Some(i);
      }
    }
  }

  /** An undo must not reverse an event that is still to come. */
  ghost predicate LogOk(w: World) {
    forall i :: 0 <= i < |w.events| ==>
      && w.events[i].entity in w.entities
      && (w.events[i].reverses.Some? ==> w.events[i].reverses.value < i)
      && (w.events[i].kind.Undoable() ==> w.events[i].reverses.None?)
  }

  ghost predicate StacksOk(t: Traced) {
    && |t.before| == |t.world.events| && LogOk(t.world)
    && forall e :: e in t.world.rows ==> Levels(t.world.rows[e], t.world.events, t.before, e, |t.world.events|)
  }

  /** Pushing: an event whose rewinding leads back to the row before it. */
  lemma PushKeepsLevels(t: Traced, e: Id, row: Row, event: Event, w: World)
    requires StacksOk(t) && e in t.world.rows && event.reverses.None?
    requires if event.kind.Undoable() && event.entity == e
             then e in w.rows && Rewind(row, event.changes) == w.rows[e] == t.world.rows[e]
             else row == t.world.rows[e]
    ensures Levels(row, t.world.events + [event], t.before + [w], e, |t.world.events| + 1)
  {
    var n := |t.world.events|;
    var events', before' := t.world.events + [event], t.before + [w];
    AppendLiveness(t.world.events, event, e);
    LevelsFrame(t.world.rows[e], t.world.events, t.before, events', before', e, n);
  }

  /** Popping: after the newest live event of `e` is reversed, the rows below it remain. */
  lemma PopKeepsLevels(t: Traced, e: Id, target: nat, event: Event, w: World)
    requires StacksOk(t) && e in t.world.rows && target < |t.world.events| && LiveOn(t.world.events, e, target)
    requires forall i :: target < i < |t.world.events| ==> !LiveOn(t.world.events, e, i)
    requires event.reverses == Some(target) && !event.kind.Undoable()
    ensures var row := Rewind(t.world.rows[e], t.world.events[target].changes);
            && e in t.before[target].rows && row == t.before[target].rows[e]
            && Levels(row, t.world.events + [event], t.before + [w], e, |t.world.events| + 1)
  {
    var n := |t.world.events|;
    var events', before' := t.world.events + [event], t.before + [w];
    var row := Rewind(t.world.rows[e], t.world.events[target].changes);
    SkipDead(t.world.rows[e], t.world.events, t.before, e, target + 1, n);
    AppendLiveness(t.world.events, event, e);
    LevelsFrame(row, t.world.events, t.before, events', before', e, target);
    SkipDead(row, events', before', e, target, n + 1);
  }

  /** Reversing another entity's event leaves this entity's stack alone. */
  lemma OtherPopKeepsLevels(t: Traced, e: Id, target: nat, event: Event, w: World)
    requires StacksOk(t) && e in t.world.rows && target < |t.world.events|
    requires t.world.events[target].entity != e
    requires event.reverses == Some(target) && !event.kind.Undoable()
    ensures Levels(t.world.rows[e], t.world.events + [event], t.before + [w], e, |t.world.events| + 1)
  {
    var n := |t.world.events|;
    AppendLiveness(t.world.events, event, e);
    LevelsFrame(t.world.rows[e], t.world.events, t.before, t.world.events + [event], t.before + [w], e, n);
  }

  /** The theorem for one state: the newest live event of `e`, rewound, gives the row
      from just before it. */
  lemma TopOfStack(t: Traced, e: Id, target: nat)
    requires StacksOk(t) && e in t.world.rows && target < |t.world.events| && LiveOn(t.world.events, e, target)
    requires forall i :: target < i < |t.world.events| ==> !LiveOn(t.world.events, e, i)
    ensures e in t.before[target].rows
    ensures Rewind(t.world.rows[e], t.world.events[target].changes) == t.before[target].rows[e]
  {
    SkipDead(t.world.rows[e], t.world.events, t.before, e, target + 1, |t.world.events|);
  }

  // ----- what an update records can be rewound

  /** Every recorded old value is the column's value. */
  ghost predicate WellRecorded(row: Row, changes: seq<Change>) {
    forall c :: c in changes ==> c.field in row && c.before == row[c.field]
  }

  lemma {:induction false} RewindColumnOf(base: Row, row: Row, changes: seq<Change>, f: Field)
    requires WellRecorded(row, changes) && (f in base <==> f in row)
    ensures f in Rewind(base, changes) <==> f in row
    ensures f in row && (base[f] == row[f] || exists c :: c in changes && c.field == f) ==> Rewind(base, changes)[f] == row[f]
  {
    if changes != [] {
      var n := |changes| - 1;
      assert changes == changes[..n] + [changes[n]];
      RewindColumnOf(base, row, changes[..n], f);
    }
  }

  /** Rewinding an advance is the identity. */
  lemma RewindAdvance(row: Row, changes: seq<Change>)
    requires WellRecorded(row, changes)
    ensures Rewind(Advance(row, changes), changes) == row
  {
    var after := Advance(row, changes);
    forall f
      ensures f in Rewind(after, changes) <==> f in row
      ensures f in row ==> Rewind(after, changes)[f] == row[f]
    {
      AdvanceColumn(row, changes, f);
      RewindColumnOf(after, row, changes, f);
    }
  }

  lemma {:induction false} AdvanceColumn(row: Row, changes: seq<Change>, f: Field)
    requires forall c :: c in changes ==> c.field in row
    ensures f in Advance(row, changes) <==> f in row
    ensures f in row ==> Advance(row, changes)[f] == row[f] || exists c :: c in changes && c.field == f
  {
    if changes != [] {
      var n := |changes| - 1;
      assert changes == changes[..n] + [changes[n]];
      AdvanceColumn(row, changes[..n], f);
    }
  }

  lemma {:induction false} DiffIsWellRecorded(fields: seq<Field>, row: Row, patch: Row)
    ensures WellRecorded(row, Diff(fields, row, patch))
  {
    if fields != [] {
      DiffIsWellRecorded(fields[..|fields| - 1], row, patch);
    }
  }

  // ----- one command

  /** An appended event that is no undo keeps every stack. */
  lemma PushKeepsStacks(t: Traced, t': Traced, event: Event, w: World)
    requires StacksOk(t) && event.reverses.None?
    requires t'.world.events == t.world.events + [event] && t'.before == t.before + [w]
    requires event.entity in t'.world.entities && t.world.entities.Keys <= t'.world.entities.Keys
    requires forall e :: e in t'.world.rows ==>
               if e in t.world.rows
               then if event.kind.Undoable() && event.entity == e
                    then && e in w.rows && w.rows[e] == t.world.rows[e]
                         && Rewind(t'.world.rows[e], event.changes) == w.rows[e]
                    else t'.world.rows[e] == t.world.rows[e]
               else e !in t.world.entities && !event.kind.Undoable()
    ensures StacksOk(t')
  {
    forall e | e in t'.world.rows ensures Levels(t'.world.rows[e], t'.world.events, t'.before, e, |t'.world.events|) {
      if e in t.world.rows {
        PushKeepsLevels(t, e, t'.world.rows[e], event, w);
      } else {
        SkipDead(t'.world.rows[e], t'.world.events, t'.before, e, 0, |t'.world.events|);
      }
    }
  }

  lemma UndoKeepsStacks(t: Traced, c: Command)
    requires StacksOk(t) && c.Undo? && Execute(t.world, c).Ok?
    ensures StacksOk(TracedStep(t, c))
  {
    var w, w' := t.world, Execute(t.world, c).value;
    var n := |w.events|;
    var target := Latest(w.events, c.entity, n).value;
    var id, event := w.events[target].entity, w'.events[n];
    assert w'.events == w.events + [event] && Record(t.before, w, 1) == t.before + [w];
    forall e | e in w'.rows ensures Levels(w'.rows[e], w'.events, t.before + [w], e, n + 1) {
      if e == id {
        PopKeepsLevels(t, e, target, event, w);
      } else {
        OtherPopKeepsLevels(t, e, target, event, w);
      }
    }
  }

  lemma UpdateKeepsStacks(t: Traced, c: Command)
    requires StacksOk(t) && (c.UpdateRow? || c.UpdateCriterion?) && Execute(t.world, c).Ok?
    ensures StacksOk(TracedStep(t, c))
  {
    var w, w' := t.world, Execute(t.world, c).value;
    var n := |w.events|;
    assert Record(t.before, w, 1) == t.before + [w];
    if c.UpdateRow? {
      var row := w.rows[c.id];
      var ruled := WithDateRule(row, c.patch).value;
      DiffIsWellRecorded(OrderedFields(c.kind), row, ruled);
      RewindAdvance(row, UpdateChanges(c.kind, row, ruled, c.now));
    } else {
      var row := w.rows[c.goal];
      DiffIsWellRecorded(CriterionFields(c.criterion), row, c.patch);
      RewindAdvance(row, CriterionChanges(row, c.criterion, c.patch, c.source));
    }
    PushKeepsStacks(t, TracedStep(t, c), w'.events[n], w);
  }

  lemma OtherKeepsStacks(t: Traced, c: Command)
    requires StacksOk(t) && RowsOk(t.world) && !c.UpdateRow? && !c.UpdateCriterion? && !c.Undo?
    requires Execute(t.world, c).Ok?
    ensures StacksOk(TracedStep(t, c))
  {
    var w, w' := t.world, Execute(t.world, c).value;
    var n := |w.events|;
    if c.CreateDecision? {
      DecisionKeepsStacks(t, c);
    } else if |w'.events| == n + 1 {
      assert Record(t.before, w, 1) == t.before + [w];
      PushKeepsStacks(t, TracedStep(t, c), w'.events[n], w);
    } else {
      assert w' == w;
    }
  }

  /** Replacing a decision appends two events. */
  lemma DecisionKeepsStacks(t: Traced, c: Command)
    requires StacksOk(t) && RowsOk(t.world) && c.CreateDecision? && Execute(t.world, c).Ok?
    ensures StacksOk(TracedStep(t, c))
  {
    var w, w' := t.world, Execute(t.world, c).value;
    var n := |w.events|;
    if c.supersedes.None? {
      assert Record(t.before, w, 1) == t.before + [w];
      PushKeepsStacks(t, TracedStep(t, c), w'.events[n], w);
    } else {
      assert Record(t.before, w, 2) == t.before + [w] + [w];
      var middle := Traced(w'.(events := w.events + [w'.events[n]]), t.before + [w]);
      PushKeepsStacks(t, middle, w'.events[n], w);
      PushKeepsStacks(middle, TracedStep(t, c), w'.events[n + 1], w);
    }
  }

  // ----- every run

  lemma {:induction false} ReachableStacksOk(commands: seq<Command>)
    ensures StacksOk(TracedRun(commands)) && TracedRun(commands).world == Run(commands)
    decreases |commands|
  {
    TracedRunIsRun(commands);
    if commands != [] {
      var most, c := commands[..|commands| - 1], commands[|commands| - 1];
      ReachableStacksOk(most);
      ReachableGraphsOk(most);
      if Execute(Run(most), c).Ok? {
        match c {
          case Undo(_, _) => UndoKeepsStacks(TracedRun(most), c);
          case UpdateRow(_, _, _, _) => UpdateKeepsStacks(TracedRun(most), c);
          case UpdateCriterion(_, _, _, _, _) => UpdateKeepsStacks(TracedRun(most), c);
          case _ => OtherKeepsStacks(TracedRun(most), c);
        }
      }
    }
  }

  /** Under any interleaving of updates, undos and activity on other entities, an
      accepted undo gives the entity back the whole row it had just before the command
      that appended the reversed event. */
  lemma UndoRestoresRow(commands: seq<Command>, entity: Option<Id>, now: Time)
    requires Execute(Run(commands), Undo(entity, now)).Ok?
    ensures |TracedRun(commands).before| == |Run(commands).events|
    ensures var w := Run(commands);
            var w' := Execute(w, Undo(entity, now)).value;
            var target := Latest(w.events, entity, |w.events|).value;
            var id, past := w.events[target].entity, TracedRun(commands).before[target];
            && id in past.rows && w'.rows == w.rows[id := past.rows[id]]
            && w'.events[|w.events|].reverses == Some(target)
  {
    ReachableStacksOk(commands);
    var w := Run(commands);
    var target := Latest(w.events, entity, |w.events|).value;
    TopOfStack(TracedRun(commands), w.events[target].entity, target);
  }

  /** The state recorded for event `i` is the one that command `k`, which appended it, found. */
  ghost predicate RecordedAt(commands: seq<Command>, i: nat, k: nat) {
    && i < |TracedRun(commands).before| && k < |commands|
    && TracedRun(commands).before[i] == Run(commands[..k])
    && |Run(commands[..k]).events| <= i < |Run(commands[..k + 1]).events|
  }

  lemma RecordStays(commands: seq<Command>, i: nat, k: nat)
    requires commands != [] && RecordedAt(commands[..|commands| - 1], i, k)
    ensures RecordedAt(commands, i, k)
  {
    var most := commands[..|commands| - 1];
    BeforeGrows(commands);
    assert most[..k] == commands[..k] && most[..k + 1] == commands[..k + 1];
  }

  lemma RecordedLast(commands: seq<Command>, i: nat)
    requires commands != [] && i < |TracedRun(commands).before|
    requires i >= |TracedRun(commands[..|commands| - 1]).before|
    ensures RecordedAt(commands, i, |commands| - 1)
  {
    BeforeGrows(commands);
    assert commands[..|commands|] == commands;
  }

  /** What `before` holds: the state of the run that the command appending event `i` found. */
  lemma {:induction false} BeforeIsARunState(commands: seq<Command>, i: nat) returns (k: nat)
    requires i < |TracedRun(commands).before|
    ensures RecordedAt(commands, i, k)
    decreases |commands|
  {
    assert commands != [];
    if i < |TracedRun(commands[..|commands| - 1]).before| {
      k := BeforeIsARunState(commands[..|commands| - 1], i);
      RecordStays(commands, i, k);
    } else {
      k := |commands| - 1;
      RecordedLast(commands, i);
    }
  }

  /** The last command keeps what was recorded and records, for each event it appends, the
      state it found. */
  lemma BeforeGrows(commands: seq<Command>)
    ensures commands == [] ==> TracedRun(commands).before == []
    ensures commands != [] ==>
              var t, t' := TracedRun(commands[..|commands| - 1]), TracedRun(commands);
              && |t.before| == |Run(commands[..|commands| - 1]).events| && |t'.before| == |Run(commands).events|
              && |t.before| <= |t'.before| && (forall i :: 0 <= i < |t.before| ==> t'.before[i] == t.before[i])
              && forall i :: |t.before| <= i < |t'.before| ==> t'.before[i] == Run(commands[..|commands| - 1])
  {
    if commands != [] {
      var most := commands[..|commands| - 1];
      ReachableStacksOk(commands);
      ReachableStacksOk(most);
      TracedRunIsRun(most);
      var t, t' := TracedRun(most), TracedRun(commands);
      assert t' == TracedStep(t, commands[|commands| - 1]);
      forall i | 0 <= i < |t.before| ensures t'.before[i] == t.before[i] {
        assert t'.before[i] == t'.before[..|t.before|][i];
      }
    }
  }

  // ----- column constraints

  ghost predicate RowsValid(w: World) {
    forall id :: id in w.rows ==> id in w.entities && RowOk(w.entities[id].kind, w.rows[id])
  }

  /** Identities keep their kind. */
  ghost predicate KindsKept(past: World, w: World) {
    forall id :: id in past.entities ==> id in w.entities && w.entities[id].kind == past.entities[id].kind
  }

  lemma UpdatedRowOk(kind: Kind, row: Row, patch: Row, now: Time)
    requires kind != Decision && RowOk(kind, row) && PatchTyped(kind, patch) && WithDateRule(row, patch).Ok?
    ensures RowOk(kind, Advance(row, UpdateChanges(kind, row, WithDateRule(row, patch).value, now)))
  {
    var ruled := WithDateRule(row, patch).value;
    UpdatedColumns(kind, row, ruled, now);
    var after := Advance(row, UpdateChanges(kind, row, ruled, now));
    forall f | HasColumn(kind, f) ensures f in after && Typed(f, after[f]) {
      assert f in row && after[f] == if f in ruled then ruled[f] else row[f];
    }
    assert HasColumn(kind, Status) && HasColumn(kind, Date) && HasColumn(kind, DateType);
  }

  lemma CreatedRowOk(c: Command)
    requires c.CreateRow? && c.kind != Decision && PatchTyped(c.kind, c.fields) && AllColumns(c.kind, c.fields)
    requires DateType in c.fields && Date in c.fields && (!c.fields[DateType].Null? ==> !c.fields[Date].Null?)
    ensures RowOk(c.kind, NewRow(c.kind, c.fields, c.criteria, c.now))
  {
    var row := NewRow(c.kind, c.fields, c.criteria, c.now);
    assert forall f :: HasColumn(c.kind, f) ==> f in row && row[f] == c.fields[f];
  }

  lemma CriterionRowOk(kind: Kind, row: Row, criterion: Id, patch: Row, source: Value)
    requires RowOk(kind, row)
    ensures RowOk(kind, Advance(row, CriterionChanges(row, criterion, patch, source)))
  {
    var changes := CriterionChanges(row, criterion, patch, source);
    DiffFields(CriterionFields(criterion), row, patch);
    forall f: Field | !f.Criterion?
      ensures f in Advance(row, changes) <==> f in row
      ensures f in row ==> Advance(row, changes)[f] == row[f]
    {
      AdvanceLeavesOthers(row, changes, f);
    }
  }

  ghost predicate HistoryValid(t: Traced) {
    && StacksOk(t) && RowsValid(t.world)
    && forall i :: 0 <= i < |t.before| ==> RowsValid(t.before[i]) && KindsKept(t.before[i], t.world)
  }

  lemma ExecuteKeepsKinds(w: World, c: Command)
    requires Execute(w, c).Ok?
    ensures KindsKept(w, Execute(w, c).value)
  {
  }

  /** One valid row written, or none, with kinds kept. */
  lemma RowWriteKeepsValid(w: World, w': World, id: Id, row: Row)
    requires RowsValid(w) && KindsKept(w, w') && w'.rows == w.rows[id := row]
    requires id in w'.entities && RowOk(w'.entities[id].kind, row)
    ensures RowsValid(w')
  {
  }

  lemma CreateKeepsRowsValid(w: World, c: Command)
    requires RowsValid(w) && c.CreateRow? && Execute(w, c).Ok?
    ensures RowsValid(Execute(w, c).value)
  {
    CreatedRowOk(c);
    RowWriteKeepsValid(w, Execute(w, c).value, c.id, NewRow(c.kind, c.fields, c.criteria, c.now));
  }

  lemma UpdateKeepsRowsValid(w: World, c: Command)
    requires RowsValid(w) && (c.UpdateRow? || c.UpdateCriterion?) && Execute(w, c).Ok?
    ensures RowsValid(Execute(w, c).value)
  {
    if c.UpdateRow? {
      UpdatedRowOk(c.kind, w.rows[c.id], c.patch, c.now);
      RowWriteKeepsValid(w, Execute(w, c).value, c.id, Execute(w, c).value.rows[c.id]);
    } else {
      CriterionRowOk(Goal, w.rows[c.goal], c.criterion, c.patch, c.source);
      RowWriteKeepsValid(w, Execute(w, c).value, c.goal, Execute(w, c).value.rows[c.goal]);
    }
  }

  lemma ExecuteKeepsRowsValid(t: Traced, c: Command)
    requires HistoryValid(t) && Execute(t.world, c).Ok?
    ensures RowsValid(Execute(t.world, c).value)
  {
    if c.CreateRow? {
      CreateKeepsRowsValid(t.world, c);
    } else if c.UpdateRow? || c.UpdateCriterion? {
      UpdateKeepsRowsValid(t.world, c);
    } else if c.Undo? {
      UndoKeepsRowsValid(t, c);
    } else {
      ExecuteKeepsKinds(t.world, c);
      assert Execute(t.world, c).value.rows == t.world.rows;
    }
  }

  /** The restored row was a valid row of the same kind. */
  lemma UndoKeepsRowsValid(t: Traced, c: Command)
    requires HistoryValid(t) && c.Undo? && Execute(t.world, c).Ok?
    ensures RowsValid(Execute(t.world, c).value)
  {
    var target := Latest(t.world.events, c.entity, |t.world.events|).value;
    TopOfStack(t, t.world.events[target].entity, target);
    assert RowsValid(t.before[target]) && KindsKept(t.before[target], t.world);
  }

  /** One command keeps the rows, and those it recorded, valid. */
  lemma StepKeepsValid(t: Traced, c: Command)
    requires HistoryValid(t) && Execute(t.world, c).Ok? && StacksOk(TracedStep(t, c))
    ensures HistoryValid(TracedStep(t, c))
  {
    ExecuteKeepsRowsValid(t, c);
    ExecuteKeepsKinds(t.world, c);
    var t' := TracedStep(t, c);
    forall i | 0 <= i < |t'.before| ensures RowsValid(t'.before[i]) && KindsKept(t'.before[i], t'.world) {
      if i < |t.before| {
        assert t'.before[i] == t'.before[..|t.before|][i];
      } else {
        assert t'.before[i] == t.world;
      }
    }
  }

  /** In every reachable World State, through any sequence of updates and undos: a row is
      in its completed status exactly when its completion time is set, and a deadline
      type comes with a deadline. */
  lemma {:induction false} CompletionAndDeadlinesSurvive(commands: seq<Command>)
    ensures HistoryValid(TracedRun(commands))
    ensures var w := Run(commands);
            forall id :: id in w.rows ==>
              && id in w.entities && RowOk(w.entities[id].kind, w.rows[id])
    decreases |commands|
  {
    ReachableStacksOk(commands);
    if commands != [] {
      var most, c := commands[..|commands| - 1], commands[|commands| - 1];
      CompletionAndDeadlinesSurvive(most);
      var t := TracedRun(most);
      ReachableStacksOk(most);
      if Execute(t.world, c).Ok? {
        StepKeepsValid(t, c);
      }
    }
  }
}
