/** World State as values: typed rows, the task dependency relation, decisions, and the
    append-only event log. Tasks, projects and goals share one description; what
    differs between them is which fields they have and which status completes them. */
module WorldModel {
  import opened Basics
  import opened Graphs

  datatype Error = NotFound | Cycle | DateRequired | NothingChanged | InvalidValue | NotReversible | NothingToUndo
                 | NotActiveDecision

  datatype Kind = Task | Project | Goal | Decision

  datatype CriterionPart = CDescription | CStatus | CConfidence | CSummary | CSource

  /** A column. A goal's success criteria are columns of the goal, so that one event
      on the goal covers them. Projects call `Title` name and both projects and goals
      call `Date` target date; goals call `CompletedAt` achieved at. */
  datatype Field =
    | Title | Description | Status | Importance | Date | DateType | Estimate
    | Parent | PrimaryProject | AutoComplete | CompletedAt
    | Criterion(id: Id, part: CriterionPart)

  datatype Value = Null | Text(text: string) | Number(n: int) | Ref(id: Id) | At(at: Time) | Flag(b: bool)

  type Row = map<Field, Value>

  datatype Change = Change(field: Field, before: Value, after: Value)

  datatype EventKind =
    | Created | Updated | StatusChanged | Completed | Cancelled | CriterionUpdated
    | DecisionCreated | DecisionSuperseded | DecisionRevoked | RelationCreated | UndoApplied
  {
    predicate Undoable() {
      Updated? || StatusChanged? || Completed? || Cancelled? || CriterionUpdated?
    }
  }

  datatype Event = Event(kind: EventKind, entity: Id, changes: seq<Change>, reverses: Option<nat>, at: Time)

  datatype Entity = Entity(kind: Kind, supersededBy: Option<Id>)

  datatype DecisionStatus = DActive | DSuperseded | DRevoked

  datatype DecisionRow = DecisionRow(status: DecisionStatus, supersedes: Option<Id>)

  datatype World = World(
    entities: map<Id, Entity>,
    rows: map<Id, Row>,
    decisions: map<Id, DecisionRow>,
    deps: set<Edge>,
    events: seq<Event>,
    lastEventAt: Option<Time>)

  // ----- columns

  /** The order in which an update compares the columns of a kind. */
  function OrderedFields(kind: Kind): seq<Field> {
    match kind
    case Task => [Title, Description, Status, Importance, Date, DateType, Estimate, Parent, PrimaryProject, AutoComplete]
    case Project => [Title, Description, Status, Importance, Date, DateType, Parent]
    case Goal => [Title, Description, Status, Importance, Date, DateType, Parent]
    case Decision => []
  }

  /** The columns an update of the kind may write. */
  predicate HasColumn(kind: Kind, f: Field) {
    match f
    case Estimate => kind == Task
    case PrimaryProject => kind == Task
    case AutoComplete => kind == Task
    case CompletedAt => false
    case Criterion(_, _) => false
    case _ => kind != Decision
  }

  lemma OrderedFieldsAreColumns(kind: Kind)
    ensures forall f :: f in OrderedFields(kind) <==> HasColumn(kind, f)
  {
    forall f ensures f in OrderedFields(kind) <==> HasColumn(kind, f) {
      var task := [Title, Description, Status, Importance, Date, DateType, Estimate, Parent, PrimaryProject, AutoComplete];
      var other := [Title, Description, Status, Importance, Date, DateType, Parent];
      assert task[0] == Title && task[1] == Description && task[2] == Status && task[3] == Importance && task[4] == Date
          && task[5] == DateType && task[6] == Estimate && task[7] == Parent && task[8] == PrimaryProject
          && task[9] == AutoComplete;
      assert other[0] == Title && other[1] == Description && other[2] == Status && other[3] == Importance
          && other[4] == Date && other[5] == DateType && other[6] == Parent;
    }
  }

  lemma OrderedFieldsDistinct(kind: Kind)
    ensures forall i, j :: 0 <= i < j < |OrderedFields(kind)| ==> OrderedFields(kind)[i] != OrderedFields(kind)[j]
  {
  }

  function DoneStatus(kind: Kind): Value {
    match kind
    case Task => Text("DONE")
    case Project => Text("COMPLETED")
    case Goal => Text("ACHIEVED")
    case Decision => Null
  }

  function CancelledStatus(kind: Kind): Value {
    match kind
    case Task => Text("CANCELLED")
    case Project => Text("CANCELLED")
    case _ => Null
  }

  predicate Typed(field: Field, v: Value) {
    match field
    case Title => v.Text?
    case Status => v.Text?
    case Description => v.Null? || v.Text?
    case DateType => v.Null? || v.Text?
    case Date => v.Null? || v.At?
    case CompletedAt => v.Null? || v.At?
    case Importance => v.Null? || v.Number?
    case Estimate => v.Null? || v.Number?
    case Parent => v.Null? || v.Ref?
    case PrimaryProject => v.Null? || v.Ref?
    case AutoComplete => v.Flag?
    case Criterion(_, _) => true
  }

  function Col(row: Row, f: Field): Value {
    if f in row then row[f] else Null
  }

  ghost predicate ColumnsTyped(kind: Kind, row: Row) {
    forall f :: HasColumn(kind, f) ==> f in row && Typed(f, row[f])
  }

  /** What the table's check constraints demand of a row. */
  ghost predicate RowOk(kind: Kind, row: Row) {
    && ColumnsTyped(kind, row)
    && CompletedAt in row && Typed(CompletedAt, row[CompletedAt])
    && (kind != Decision ==>
          && (row[Status] == DoneStatus(kind) <==> !row[CompletedAt].Null?)
          && (!row[DateType].Null? ==> !row[Date].Null?))
  }

  // ----- entities and graphs

  predicate ActiveEntity(w: World, id: Id, kind: Kind) {
    id in w.entities && w.entities[id].kind == kind && w.entities[id].supersededBy.None?
  }

  predicate ActiveRow(w: World, id: Id, kind: Kind) {
    ActiveEntity(w, id, kind) && id in w.rows
  }

  function ParentOf(w: World, id: Id): Value {
    if id in w.rows && Parent in w.rows[id] then w.rows[id][Parent] else Null
  }

  function ParentEdges(w: World, kind: Kind): set<Edge> {
    set id | id in w.rows && id in w.entities && w.entities[id].kind == kind && ParentOf(w, id).Ref? ::
      (id, ParentOf(w, id).id)
  }

  function SupersedeEdges(w: World): set<Edge> {
    set id | id in w.entities && w.entities[id].supersededBy.Some? :: (id, w.entities[id].supersededBy.value)
  }

  /** Why a parent may not be written: it is the child, it is not an active row of the
      kind, or its own ancestors include the child. */
  ghost function ParentVerdict(w: World, kind: Kind, child: Id, parent: Value): Option<Error> {
    if !parent.Ref? then None
    else if parent.id == child then Some(Cycle)
    else if !ActiveRow(w, parent.id, kind) then Some(NotFound)
    else if Reaches(ParentEdges(w, kind), parent.id, child) then Some(Cycle)
    else None
  }

  predicate ProjectAllowed(w: World, project: Value) {
    project.Ref? ==> ActiveRow(w, project.id, Project)
  }

  // ----- the event log

  function NextTime(last: Option<Time>, now: Time): Time {
    if last.Some? && now <= last.value then last.value + 1 else now
  }

  function Append(w: World, kind: EventKind, entity: Id, changes: seq<Change>, reverses: Option<nat>, now: Time): World {
    var at := NextTime(w.lastEventAt, now);
    w.(events := w.events + [Event(kind, entity, changes, reverses, at)], lastEventAt := Some(at))
  }

  predicate Reversed(events: seq<Event>, i: nat) {
    exists j :: 0 <= j < |events| && events[j].reverses == Some(i)
  }

  /** Event `i` may still be undone. */
  predicate Live(events: seq<Event>, i: nat) {
    i < |events| && events[i].kind.Undoable() && !Reversed(events, i)
  }

  predicate LiveOn(events: seq<Event>, entity: Id, i: nat) {
    Live(events, i) && events[i].entity == entity
  }

  /** The newest of the first `n` events that can be undone, on one entity or on any. */
  function Latest(events: seq<Event>, entity: Option<Id>, n: nat): (r: Option<nat>)
    requires n <= |events|
    ensures r.Some? ==> r.value < n && Live(events, r.value)
                        && (entity.Some? ==> events[r.value].entity == entity.value)
    ensures forall i :: (if r.Some? then r.value + 1 else 0) <= i < n && Live(events, i) ==>
              entity.Some? && events[i].entity != entity.value
  {
    if n == 0 then None
    else if Live(events, n - 1) && (entity.Some? ==> events[n - 1].entity == entity.value) then Some(n - 1)
    else Latest(events, entity, n - 1)
  }

  // ----- rows under change

  /** The changes an update records: the provided columns whose value differs, in order. */
  function Diff(fields: seq<Field>, row: Row, patch: Row): seq<Change> {
    if fields == [] then []
    else
      var most, f := Diff(fields[..|fields| - 1], row, patch), fields[|fields| - 1];
      if f in patch && f in row && row[f] != patch[f] then most + [Change(f, row[f], patch[f])] else most
  }

  function Advance(row: Row, changes: seq<Change>): Row {
    if changes == [] then row
    else Advance(row, changes[..|changes| - 1])[changes[|changes| - 1].field := changes[|changes| - 1].after]
  }

  /** Undo writes the old value of every recorded change. */
  function Rewind(row: Row, changes: seq<Change>): Row {
    if changes == [] then row
    else Rewind(row, changes[..|changes| - 1])[changes[|changes| - 1].field := changes[|changes| - 1].before]
  }

  /** Clearing the date clears its type; any other type without a date is refused. */
  function WithDateRule(row: Row, patch: Row): Result<Row, Error> {
    var date := if Date in patch then patch[Date] else Col(row, Date);
    var kind := if DateType in patch then patch[DateType] else Col(row, DateType);
    if kind.Null? || !date.Null? then Ok(patch)
    else if Date in patch && DateType !in patch then Ok(patch[DateType := Null])
    else Err(DateRequired)
  }

  /** The status after the patch. */
  function StatusAfter(row: Row, patch: Row): Value {
    if Status in patch && Status in row then patch[Status] else Col(row, Status)
  }

  /** The completion column after a status change. */
  function CompletionAfter(kind: Kind, row: Row, status: Value, now: Time): Value {
    if status == Col(row, Status) then Col(row, CompletedAt)
    else if status == DoneStatus(kind) then At(now)
    else if Col(row, Status) == DoneStatus(kind) then Null
    else Col(row, CompletedAt)
  }

  /** The recorded change of the completion column, if it changes. */
  function CompletionChange(kind: Kind, row: Row, status: Value, now: Time): seq<Change> {
    var completed := CompletionAfter(kind, row, status, now);
    if CompletedAt !in row || completed == row[CompletedAt] then []
    else [Change(CompletedAt, row[CompletedAt], completed)]
  }

  function UpdateChanges(kind: Kind, row: Row, patch: Row, now: Time): seq<Change> {
    Diff(OrderedFields(kind), row, patch) + CompletionChange(kind, row, StatusAfter(row, patch), now)
  }

  function UpdateEventKind(kind: Kind, before: Value, after: Value): EventKind {
    if before == after then Updated
    else if after == DoneStatus(kind) then Completed
    else if after == CancelledStatus(kind) then Cancelled
    else StatusChanged
  }

  predicate PatchTyped(kind: Kind, patch: Row) {
    forall f :: f in patch ==> HasColumn(kind, f) && Typed(f, patch[f])
  }
}
