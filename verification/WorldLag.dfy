/** A concrete history that breaks the clock condition: a second service instance, whose
    clock lags behind the first, updates the same task, and the undo after it takes back
    the wrong update. */
module WorldLag {
  import opened Basics
  import opened WorldModel
  import opened WorldSpec
  import opened WorldGraphs
  import opened WorldUndo
  import opened WorldServices

  const A := Text("a")
  const B := Text("b")
  const D := Text("d")

  const CREATED := Event(Created, 7, [], None, 10)
  const RETITLED := Event(Updated, 7, [Change(Title, A, B)], None, 20)
  const REDESCRIBED := Event(Updated, 7, [Change(Description, Null, D)], None, 15)

  function Create(fields: Row): Call {
    Call(0, Command.CreateRow(Task, 7, fields, map[], [], 10), [100])
  }

  const RETITLE := Call(0, Command.UpdateRow(7, Task, map[Title := B], 20), [101])
  const REDESCRIBE := Call(1, Command.UpdateRow(7, Task, map[Description := D], 15), [102])

  /** The row of a task without dates or parents. */
  predicate Plain(row: Row) {
    && {Title, Description, Status, Date, DateType, Parent, CompletedAt} <= row.Keys
    && row[Date].Null? && row[DateType].Null? && row[Parent].Null?
  }

  /** Task 7 with the given row, log and clock. */
  function Tasks(row: Row, events: seq<Event>, last: Option<Time>): World {
    World(map[7 := Entity(Task, None)], map[7 := row], map[], {}, events, last)
  }

  // ----- one column at a time

  lemma {:induction false} DiffOne(fields: seq<Field>, row: Row, f: Field, v: Value)
    requires forall i, j :: 0 <= i < j < |fields| ==> fields[i] != fields[j]
    requires f in row && row[f] != v
    ensures Diff(fields, row, map[f := v]) == if f in fields then [Change(f, row[f], v)] else []
  {
    if fields != [] {
      var n := |fields| - 1;
      DiffOne(fields[..n], row, f, v);
      assert fields == fields[..n] + [fields[n]];
    }
  }

  lemma ChangesOfOne(row: Row, f: Field, v: Value, now: Time)
    requires Plain(row) && (f == Title || f == Description) && row[f] != v
    ensures UpdateChanges(Task, row, map[f := v], now) == [Change(f, row[f], v)]
    ensures Advance(row, [Change(f, row[f], v)]) == row[f := v]
  {
    OrderedFieldsAreColumns(Task);
    OrderedFieldsDistinct(Task);
    assert HasColumn(Task, f);
    DiffOne(OrderedFields(Task), row, f, v);
    SingleAdvance(row, [Change(f, row[f], v)]);
  }

  /** Updating the title or the description of the task. */
  lemma UpdateOne(row: Row, events: seq<Event>, last: Option<Time>, f: Field, v: Value, now: Time)
    requires Plain(row) && (f == Title || f == Description) && v.Text? && row[f] != v
    ensures var at := NextTime(last, now);
            Execute(Tasks(row, events, last), Command.UpdateRow(7, Task, map[f := v], now))
            == Ok(Tasks(row[f := v], events + [Event(Updated, 7, [Change(f, row[f], v)], None, at)], Some(at)))
  {
    ChangesOfOne(row, f, v, now);
    assert WithDateRule(row, map[f := v]) == Ok(map[f := v]);
    assert map[7 := row][7 := row[f := v]] == map[7 := row[f := v]];
  }

  // ----- the three calls

  /** The state after `n` calls, from the row of the new task on. */
  function One(row: Row): Shared {
    Shared(Traced(Tasks(row, [CREATED], Some(10)), [EMPTY]), [100], map[0 := 10])
  }

  function Two(row: Row): Shared {
    Shared(Traced(Tasks(row[Title := B], [CREATED, RETITLED], Some(20)), [EMPTY, Tasks(row, [CREATED], Some(10))]),
           [100, 101], map[0 := 20])
  }

  function Three(row: Row): Shared {
    Shared(Traced(Tasks(row[Title := B][Description := D], [CREATED, RETITLED, REDESCRIBED], Some(15)),
                  [EMPTY, Tasks(row, [CREATED], Some(10)), Tasks(row[Title := B], [CREATED, RETITLED], None)]),
           [100, 101, 102], map[0 := 20, 1 := 15])
  }

  lemma TaskFields() returns (fields: Row)
    ensures PatchTyped(Task, fields) && AllColumns(Task, fields) && Plain(fields[CompletedAt := Null])
    ensures fields[Title] == A && fields[Description] == Null && fields[Status] == Text("TODO")
    ensures PrimaryProject in fields && fields[PrimaryProject].Null?
  {
    fields := map[Title := A, Description := Null, Status := Text("TODO"), Importance := Null, Date := Null,
                  DateType := Null, Estimate := Null, Parent := Null, PrimaryProject := Null, AutoComplete := Flag(false)];
    forall f | HasColumn(Task, f) ensures f in fields {
      match f { case Criterion(_, _) => case _ => }
    }
  }

  lemma NewTaskRow(fields: Row)
    requires Status in fields && fields[Status] == Text("TODO")
    ensures NewRow(Task, fields, map[], 10) == fields[CompletedAt := Null]
  {
    assert CriterionColumns(map[]) == map[];
    assert "TODO"[0] != "DONE"[0];
  }

  lemma CreateExecutes(fields: Row)
    requires PatchTyped(Task, fields) && AllColumns(Task, fields) && Plain(fields[CompletedAt := Null])
    requires fields[Status] == Text("TODO") && PrimaryProject in fields && fields[PrimaryProject].Null?
    ensures Execute(EMPTY, Create(fields).command) == Ok(Tasks(fields[CompletedAt := Null], [CREATED], Some(10)))
  {
    NewTaskRow(fields);
    assert IncomingEdges([], 7) == {} && {} + IncomingEdges([], 7) == {};
    assert HasColumn(Task, Date) && HasColumn(Task, DateType) && HasColumn(Task, Parent);
    assert [] + [CREATED] == [CREATED];
    assert CreateRowResult(EMPTY, Task, 7, fields, map[], [], 10).Ok?;
  }

  /** A call that adds one event is recorded with the state it was made in. */
  lemma ServedOne(s: Shared, call: Call, w: World)
    requires |s.ids| == |s.t.world.events| && !call.command.Undo?
    requires Execute(Attached(s, call.service).world, call.command) == Ok(w)
    requires |w.events| == |s.ids| + 1 && w.lastEventAt.Some?
    ensures Serve(s, call) == Shared(Traced(w, Record(s.t.before, Attached(s, call.service).world, 1)),
                                     s.ids + call.ids, s.last[call.service := w.lastEventAt.value])
  {
  }

  lemma CreateServed(fields: Row)
    requires Execute(EMPTY, Create(fields).command) == Ok(Tasks(fields[CompletedAt := Null], [CREATED], Some(10)))
    ensures InOrder(NOTHING, Create(fields)) && Serve(NOTHING, Create(fields)) == One(fields[CompletedAt := Null])
  {
    assert Attached(NOTHING, 0).world == EMPTY;
    assert Record([], EMPTY, 1) == [EMPTY];
    assert [] + [100] == [100] && map[][0 := 10] == map[0 := 10];
  }

  lemma RetitleServed(row: Row)
    requires Plain(row) && row[Title] == A
    ensures Serve(One(row), RETITLE) == Two(row)
  {
    UpdateOne(row, [CREATED], Some(10), Title, B, 20);
    assert Attached(One(row), 0).world == Tasks(row, [CREATED], Some(10));
    assert [CREATED] + [RETITLED] == [CREATED, RETITLED] && [100] + [101] == [100, 101];
    ServedOne(One(row), RETITLE, Two(row).t.world);
    assert Record([EMPTY], One(row).t.world, 1) == Two(row).t.before;
    assert map[0 := 10][0 := 20] == map[0 := 20];
  }

  lemma RetitleIsInOrder(row: Row)
    requires Serve(One(row), RETITLE) == Two(row)
    ensures InOrder(One(row), RETITLE)
  {
    assert !LiveOn([CREATED, RETITLED], 7, 0);
  }

  lemma RedescribeServed(row: Row)
    requires Plain(row) && row[Description] == Null
    ensures Numbered(Two(row), REDESCRIBE) && Serve(Two(row), REDESCRIBE) == Three(row)
    ensures ServeResult(Attached(Two(row), 1).world, Two(row).ids, REDESCRIBE.command).Ok?
  {
    UpdateOne(row[Title := B], [CREATED, RETITLED], None, Description, D, 15);
    assert Attached(Two(row), 1).world == Tasks(row[Title := B], [CREATED, RETITLED], None);
    assert [CREATED, RETITLED] + [REDESCRIBED] == [CREATED, RETITLED, REDESCRIBED] && [100, 101] + [102] == [100, 101, 102];
    ServedOne(Two(row), REDESCRIBE, Three(row).t.world);
    assert Record(Two(row).t.before, Attached(Two(row), 1).world, 1) == Three(row).t.before;
    assert map[0 := 20][1 := 15] == map[0 := 20, 1 := 15];
  }

  // ----- what goes wrong

  lemma UpdatesAreLive()
    ensures var events := [CREATED, RETITLED, REDESCRIBED];
            Live(events, 1) && Live(events, 2) && !Live(events, 0)
  {
  }

  lemma RedescribeIsOutOfOrder(row: Row)
    requires Serve(Two(row), REDESCRIBE) == Three(row)
    ensures !InOrder(Two(row), REDESCRIBE)
  {
    UpdatesAreLive();
    var after := [CREATED, RETITLED, REDESCRIBED];
    assert LiveOn(after, after[2].entity, 1) && !Earlier(after, [100, 101, 102], 1, 2);
  }

  /** The undo finds the title update, which is the newest by time. */
  lemma TitleIsNewest(k: nat)
    ensures IsNewest([CREATED, RETITLED, REDESCRIBED], [100, 101, 102], Some(7), k) <==> k == 1
  {
    UpdatesAreLive();
    var events := [CREATED, RETITLED, REDESCRIBED];
    assert Candidate(events, Some(7), 1) && Earlier(events, [100, 101, 102], 2, 1) && !Earlier(events, [100, 101, 102], 1, 2);
  }

  lemma UndoOne(row: Row, events: seq<Event>, last: Option<Time>, k: nat, change: Change, now: Time)
    requires k < |events| && events[k].entity == 7 && events[k].changes == [change]
    requires change.field in row && change.field != Parent
    ensures var w := Tasks(row, events, last);
            UndoEvent(w, k, now) == Ok(Append(Tasks(row[change.field := change.before], events, last), UndoApplied, 7,
                                              ReverseChanges(row, [change]), Some(k), now))
  {
    var w := Tasks(row, events, last);
    assert [change][..0] == [] && ChangesVerdict(w, Task, 7, []).None? && ChangesVerdict(w, Task, 7, [change]).None?;
    assert Rewind(row, [change]) == row[change.field := change.before];
    assert w.rows[7 := row[change.field := change.before]] == map[7 := row[change.field := change.before]];
  }

  lemma UndoServed(row: Row, service: ServiceId, now: Time)
    requires Plain(row)
    ensures var r := ServeResult(Attached(Three(row), service).world, Three(row).ids, Undo(Some(7), now));
            && r.Ok? && |r.value.events| == 4 && r.value.events[3].reverses == Some(1)
            && r.value.rows == map[7 := row[Title := B][Description := D][Title := A]]
  {
    var w := Attached(Three(row), service).world;
    forall k: nat ensures IsNewest(w.events, [100, 101, 102], Some(7), k) <==> k == 1 {
      TitleIsNewest(k);
    }
    assert w == Tasks(row[Title := B][Description := D], w.events, w.lastEventAt);
    assert IsNewest(w.events, Three(row).ids, Some(7), 1);
    assert ServeResult(w, Three(row).ids, Undo(Some(7), now)) == UndoEvent(w, 1, now);
    UndoOne(row[Title := B][Description := D], w.events, w.lastEventAt, 1, Change(Title, A, B), now);
  }

  lemma TwoCalls(first: Call, second: Call, one: Shared, two: Shared)
    requires InOrder(NOTHING, first) && Serve(NOTHING, first) == one
    requires |one.ids| == |one.t.world.events| && InOrder(one, second) && Serve(one, second) == two
    ensures History([first, second]) == Some(two)
  {
    assert [first, second][..1] == [first] && [first][..0] == [];
    assert History([]) == Some(NOTHING);
    assert History([first]) == Some(one);
  }

  lemma RowsDiffer(row: Row)
    requires Plain(row) && row[Title] == A && row[Description] == Null
    ensures var undone := row[Title := B][Description := D][Title := A];
            && map[7 := undone] != map[7 := row[Title := B][Description := D]][7 := row]
            && map[7 := undone] != map[7 := row[Title := B][Description := D]][7 := row[Title := B]]
  {
    var undone := row[Title := B][Description := D][Title := A];
    var w := map[7 := row[Title := B][Description := D]];
    assert map[7 := undone][7][Description] != w[7 := row][7][Description];
    assert map[7 := undone][7][Title] != w[7 := row[Title := B]][7][Title];
  }

  /** Service 0 creates task 7 at 10 and changes its title at 20; a fresh service 1, whose
      clock reads 15, then changes its description. The last call is accepted and out of
      order, and an undo by any service at any time takes back the title: the new
      description stays, so the row is neither the one before the last change nor the one
      before the change that was taken back. */
  lemma LaggingClockMisleadsUndo(service: ServiceId, now: Time) returns (fields: Row, two: Shared, three: Shared)
    ensures History([Create(fields), RETITLE]) == Some(two) && |two.ids| == |two.t.world.events| == 2
    ensures Numbered(two, REDESCRIBE) && !InOrder(two, REDESCRIBE) && Serve(two, REDESCRIBE) == three
    ensures ServeResult(Attached(two, 1).world, two.ids, REDESCRIBE.command).Ok?
    ensures |three.ids| == |three.t.world.events| == |three.t.before| == 3
    ensures var w := three.t.world;
            var r := ServeResult(Attached(three, service).world, three.ids, Undo(Some(7), now));
            && r.Ok? && |r.value.events| == 4 && r.value.events[3].reverses == Some(1)
            && (forall k :: k in {1, 2} ==> 7 in three.t.before[k].rows
                                            && r.value.rows != w.rows[7 := three.t.before[k].rows[7]])
            && 7 in r.value.rows && Col(r.value.rows[7], Description) == D && Col(r.value.rows[7], Title) == A
  {
    fields := TaskFields();
    var row := fields[CompletedAt := Null];
    CreateExecutes(fields);
    CreateServed(fields);
    RetitleServed(row);
    RetitleIsInOrder(row);
    RedescribeServed(row);
    RedescribeIsOutOfOrder(row);
    UndoServed(row, service, now);
    two, three := Two(row), Three(row);
    TwoCalls(Create(fields), RETITLE, One(row), two);
    RowsDiffer(row);
  }
}
