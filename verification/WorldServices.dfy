/** The event log written by several service instances. Each stamps its own events with
    increasing times, but knows nothing of the others, and undo looks for the newest
    live event by time and identifier. It finds the right one exactly while every
    undoable event is stamped after the live events of its entity. */
module WorldServices {
  import opened Basics
  import opened Graphs
  import opened WorldModel
  import opened WorldSpec
  import opened WorldGraphs
  import opened WorldUndo
  import WorldClock

  type ServiceId = nat

  /** The run so far, the identifiers of its events, and each service's last event time. */
  datatype Shared = Shared(t: Traced, ids: seq<Id>, last: map<ServiceId, Time>)

  /** A command served by one instance; `ids` are the identifiers its events are given. */
  datatype Call = Call(service: ServiceId, command: Command, ids: seq<Id>)

  // ----- the newest event by time

  predicate Earlier(events: seq<Event>, ids: seq<Id>, i: nat, j: nat)
    requires i < |events| && j < |events| && |ids| == |events|
  {
    events[i].at < events[j].at || (events[i].at == events[j].at && ids[i] < ids[j])
  }

  predicate Candidate(events: seq<Event>, entity: Option<Id>, k: nat) {
    Live(events, k) && (entity.Some? ==> events[k].entity == entity.value)
  }

  /** What the undo query returns: the last candidate by time and identifier. */
  ghost predicate IsNewest(events: seq<Event>, ids: seq<Id>, entity: Option<Id>, k: nat)
    requires |ids| == |events|
  {
    && Candidate(events, entity, k)
    && forall i :: 0 <= i < |events| && i != k && Candidate(events, entity, i) ==> Earlier(events, ids, i, k)
  }

  ghost predicate DistinctIds(ids: seq<Id>) {
    forall i, j :: 0 <= i < j < |ids| ==> ids[i] != ids[j]
  }

  /** As long as there is a candidate, there is a newest one. */
  lemma NewestExists(events: seq<Event>, ids: seq<Id>, entity: Option<Id>, k: nat) returns (newest: nat)
    requires |ids| == |events| && DistinctIds(ids) && Candidate(events, entity, k)
    ensures IsNewest(events, ids, entity, newest)
  {
    newest := k;
    for i := 0 to |events|
      invariant Candidate(events, entity, newest)
      invariant forall j :: 0 <= j < i && j != newest && Candidate(events, entity, j) ==> Earlier(events, ids, j, newest)
    {
      if Candidate(events, entity, i) && Earlier(events, ids, newest, i) {
        newest := i;
      }
    }
  }

  // ----- serving a call

  /** The state as the instance finds it: the log is shared, the clock is its own. */
  function Attached(s: Shared, service: ServiceId): Traced {
    s.t.(world := s.t.world.(lastEventAt := if service in s.last then Some(s.last[service]) else None))
  }

  /** Undo takes the newest event by time and identifier; everything else is as before. */
  ghost function ServeResult(w: World, ids: seq<Id>, c: Command): Result<World, Error>
    requires |ids| == |w.events|
  {
    if !c.Undo? then Execute(w, c)
    else if c.entity.Some? && (c.entity.value !in w.entities || w.entities[c.entity.value].supersededBy.Some?)
      then Err(NotFound)
    else if k: nat :| IsNewest(w.events, ids, c.entity, k) then UndoEvent(w, k, c.now)
    else Err(NothingToUndo)
  }

  /** The call gives each event it appends an identifier that was not in use. */
  ghost predicate Numbered(s: Shared, call: Call)
    requires |s.ids| == |s.t.world.events|
  {
    DistinctIds(s.ids + call.ids)
    && match ServeResult(Attached(s, call.service).world, s.ids, call.command)
       case Ok(w) => |w.events| == |s.ids| + |call.ids|
       case Err(_) => true
  }

  ghost function Serve(s: Shared, call: Call): Shared
    requires |s.ids| == |s.t.world.events|
  {
    var t := Attached(s, call.service);
    match ServeResult(t.world, s.ids, call.command)
    case Err(_) => s
    case Ok(w) =>
      Shared(Traces(t, w), s.ids + call.ids,
             if w.lastEventAt.Some? then s.last[call.service := w.lastEventAt.value] else s.last)
  }

  /** The new events are stamped by the instance with increasing times, none before `now` or up to
      the instance's last, which it remembers; it knows nothing of the others' times, nor they of its own. */
  ghost predicate InstanceStamped(s: Shared, s': Shared, service: ServiceId, now: Time) {
    var events, after := s.t.world.events, s'.t.world.events;
    && |events| <= |after|
    && (forall i :: |events| <= i < |after| ==>
          && after[i].at >= now && (service in s.last ==> after[i].at > s.last[service])
          && (i > |events| ==> after[i].at > after[i - 1].at))
    && (|after| > |events| ==> service in s'.last && s'.last[service] == after[|after| - 1].at)
    && (forall other :: other != service ==>
          (other in s'.last <==> other in s.last) && (other in s.last ==> s'.last[other] == s.last[other]))
  }

  lemma StampsAreTheInstances(s: Shared, s': Shared, service: ServiceId, now: Time, w': World)
    requires WorldClock.StampedSince(s.t.world.events, w'.events, Attached(s, service).world.lastEventAt, w'.lastEventAt, now)
    requires s'.t.world == w' && s'.last == if w'.lastEventAt.Some? then s.last[service := w'.lastEventAt.value] else s.last
    ensures InstanceStamped(s, s', service, now)
  {
  }

  /** Whatever an instance's clock reads, its events are stamped in increasing order. */
  lemma InstanceStampsIncrease(s: Shared, call: Call)
    requires |s.ids| == |s.t.world.events| && ServeResult(Attached(s, call.service).world, s.ids, call.command).Ok?
    ensures InstanceStamped(s, Serve(s, call), call.service, call.command.now)
  {
    var w' := ServeResult(Attached(s, call.service).world, s.ids, call.command).value;
    ServedStamps(Attached(s, call.service).world, s.ids, call.command);
    ServedIs(s, call, w');
    StampsAreTheInstances(s, Serve(s, call), call.service, call.command.now, w');
  }

  lemma ServedStamps(w: World, ids: seq<Id>, c: Command)
    requires |ids| == |w.events| && ServeResult(w, ids, c).Ok?
    ensures var w' := ServeResult(w, ids, c).value;
            WorldClock.StampedSince(w.events, w'.events, w.lastEventAt, w'.lastEventAt, c.now)
  {
    if !c.Undo? {
      WorldClock.ExecuteStamps(w, c);
    } else {
      var k: nat :| IsNewest(w.events, ids, c.entity, k) && ServeResult(w, ids, c) == UndoEvent(w, k, c.now);
      WorldClock.UndoStamps(w, k, c.now);
    }
  }

  lemma ServedIs(s: Shared, call: Call, w': World)
    requires |s.ids| == |s.t.world.events| && ServeResult(Attached(s, call.service).world, s.ids, call.command) == Ok(w')
    ensures var s' := Serve(s, call);
            s'.t.world == w' && s'.last == if w'.lastEventAt.Some? then s.last[call.service := w'.lastEventAt.value] else s.last
  {
  }

  // ----- the clock condition

  /** The live events of every entity were stamped in the order they were appended. */
  ghost predicate LiveInOrder(events: seq<Event>, ids: seq<Id>)
    requires |ids| == |events|
  {
    forall i, j :: 0 <= i < j < |events| && Live(events, i) && LiveOn(events, events[i].entity, j) ==> Earlier(events, ids, i, j)
  }

  /** The undoable events that `after` adds are stamped after the live events of their entity. */
  ghost predicate StampedInOrder(events: seq<Event>, after: seq<Event>, ids: seq<Id>)
    requires |events| <= |after| == |ids|
  {
    forall i, j :: 0 <= i < |events| <= j < |after| && LiveOn(after, after[j].entity, i) && Live(after, j) ==>
      Earlier(after, ids, i, j)
  }

  /** While they are in order, the newest event by time is the top of its entity's stack. */
  lemma NewestIsTop(events: seq<Event>, ids: seq<Id>, entity: Option<Id>, k: nat)
    requires |ids| == |events| && LiveInOrder(events, ids) && IsNewest(events, ids, entity, k)
    ensures Latest(events, Some(events[k].entity), |events|) == Some(k)
  {
    var e := events[k].entity;
    assert LiveOn(events, e, k);
    forall j | k < j < |events| ensures !LiveOn(events, e, j) {
      assert Candidate(events, entity, j) ==> Earlier(events, ids, j, k);
      assert LiveOn(events, e, j) ==> Earlier(events, ids, k, j);
    }
    var r := Latest(events, Some(e), |events|);
    assert r.Some? && LiveOn(events, e, r.value);
  }

  /** An undo served by time is the undo of that event's entity. */
  lemma ServedUndo(w: World, ids: seq<Id>, c: Command, k: nat)
    requires |ids| == |w.events| && DistinctIds(ids) && LiveInOrder(w.events, ids)
    requires c.Undo? && ServeResult(w, ids, c).Ok? && IsNewest(w.events, ids, c.entity, k)
    ensures ServeResult(w, ids, c) == UndoEvent(w, k, c.now) == Execute(w, Undo(Some(w.events[k].entity), c.now))
  {
    assert forall j: nat :: IsNewest(w.events, ids, c.entity, j) ==> j == k;
    NewestIsTop(w.events, ids, c.entity, k);
  }

  // ----- what a served call keeps

  ghost predicate SharedOk(s: Shared) {
    && |s.ids| == |s.t.world.events| && DistinctIds(s.ids)
    && StacksOk(s.t) && GraphsOk(s.t.world) && LiveInOrder(s.t.world.events, s.ids)
  }

  /** The instance's clock is no part of the graphs, nor of the stacks. */
  lemma AttachedGraphs(s: Shared, service: ServiceId)
    requires GraphsOk(s.t.world)
    ensures GraphsOk(Attached(s, service).world)
  {
    var w, w' := s.t.world, Attached(s, service).world;
    assert SupersedeEdges(w') == SupersedeEdges(w);
    assert forall k :: ParentEdges(w', k) == ParentEdges(w, k);
    assert forall other :: ParentOf(w', other) == ParentOf(w, other);
  }

  lemma AttachedOk(s: Shared, service: ServiceId)
    requires SharedOk(s)
    ensures StacksOk(Attached(s, service)) && GraphsOk(Attached(s, service).world)
  {
    var w := s.t.world;
    AttachedGraphs(s, service);
    assert forall e :: e in w.rows ==> Levels(w.rows[e], w.events, s.t.before, e, |w.events|);
  }

  /** The command of the specification that the call amounts to. */
  lemma ServedIsCommand(s: Shared, call: Call) returns (c: Command)
    requires SharedOk(s) && ServeResult(Attached(s, call.service).world, s.ids, call.command).Ok?
    ensures var w := Attached(s, call.service).world;
            Execute(w, c) == ServeResult(w, s.ids, call.command) && (c.Undo? <==> call.command.Undo?)
  {
    c := call.command;
    var w := Attached(s, call.service).world;
    if c.Undo? {
      var k: nat :| IsNewest(w.events, s.ids, c.entity, k);
      ServedUndo(w, s.ids, c, k);
      c := Undo(Some(w.events[k].entity), c.now);
    }
  }

  lemma StepKeepsStacks(t: Traced, c: Command)
    requires StacksOk(t) && GraphsOk(t.world) && Execute(t.world, c).Ok?
    ensures StacksOk(TracedStep(t, c)) && GraphsOk(TracedStep(t, c).world)
  {
    ExecuteKeepsGraphs(t.world, c);
    if c.Undo? {
      UndoKeepsStacks(t, c);
    } else if c.UpdateRow? || c.UpdateCriterion? {
      UpdateKeepsStacks(t, c);
    } else {
      OtherKeepsStacks(t, c);
    }
  }

  lemma ServeKeepsStacks(s: Shared, call: Call)
    requires SharedOk(s) && Numbered(s, call)
    ensures var s' := Serve(s, call);
            && |s'.ids| == |s'.t.world.events| && DistinctIds(s'.ids) && StacksOk(s'.t) && GraphsOk(s'.t.world)
  {
    var t := Attached(s, call.service);
    if ServeResult(t.world, s.ids, call.command).Ok? {
      AttachedOk(s, call.service);
      var c := ServedIsCommand(s, call);
      StepKeepsStacks(t, c);
    }
  }

  /** Commands only append to the log, and appending never revives an event. */
  lemma LogGrows(w: World, c: Command)
    requires Execute(w, c).Ok?
    ensures var w' := Execute(w, c).value;
            |w.events| <= |w'.events| && w'.events[..|w.events|] == w.events
  {
  }

  lemma StillLive(events: seq<Event>, after: seq<Event>, i: nat)
    requires |events| <= |after| && after[..|events|] == events && i < |events| && Live(after, i)
    ensures Live(events, i) && after[i] == events[i]
  {
    assert after[i] == after[..|events|][i];
    assert forall j :: 0 <= j < |events| ==> after[j] == after[..|events|][j];
  }

  /** Only the first event a command appends can be undoable. */
  lemma OneUndoable(w: World, c: Command, j: nat)
    requires Execute(w, c).Ok? && |w.events| < j < |Execute(w, c).value.events|
    ensures !Execute(w, c).value.events[j].kind.Undoable()
  {
  }

  /** The longer log is in order exactly if its new events are stamped in order. */
  lemma LongerLogInOrder(events: seq<Event>, ids: seq<Id>, after: seq<Event>, longer: seq<Id>)
    requires |ids| == |events| <= |after| == |longer| && after[..|events|] == events && longer[..|ids|] == ids
    requires LiveInOrder(events, ids)
    requires forall j :: |events| < j < |after| ==> !after[j].kind.Undoable()
    ensures LiveInOrder(after, longer) <==> StampedInOrder(events, after, longer)
  {
    if StampedInOrder(events, after, longer) {
      forall i, j | 0 <= i < j < |after| && Live(after, i) && LiveOn(after, after[i].entity, j)
        ensures Earlier(after, longer, i, j)
      {
        if j < |events| {
          StillLive(events, after, i);
          StillLive(events, after, j);
          assert Earlier(events, ids, i, j) && longer[..|ids|][i] == ids[i] && longer[..|ids|][j] == ids[j];
        } else if i < |events| {
          assert LiveOn(after, after[j].entity, i);
        }
      }
    }
  }

  /** Exactly the calls that meet the clock condition keep the live events in order. */
  lemma OrderKeptIff(s: Shared, call: Call)
    requires SharedOk(s) && Numbered(s, call)
    requires ServeResult(Attached(s, call.service).world, s.ids, call.command).Ok?
    ensures var s' := Serve(s, call);
            && |s.t.world.events| <= |s'.t.world.events| == |s'.ids|
            && (LiveInOrder(s'.t.world.events, s'.ids)
                <==> StampedInOrder(s.t.world.events, s'.t.world.events, s'.ids))
  {
    var w, s' := Attached(s, call.service).world, Serve(s, call);
    var c := ServedIsCommand(s, call);
    LogGrows(w, c);
    forall j | |w.events| < j < |s'.t.world.events| ensures !s'.t.world.events[j].kind.Undoable() {
      OneUndoable(w, c, j);
    }
    LongerLogInOrder(w.events, s.ids, s'.t.world.events, s'.ids);
  }

  /** A call that breaks the condition leaves an entity whose newest event by time is not
      its last: the next undo there would take back an event below the top of the stack. */
  lemma OutOfOrderMisleadsUndo(s: Shared, call: Call) returns (e: Id, k: nat, top: nat)
    requires SharedOk(s) && Numbered(s, call)
    requires ServeResult(Attached(s, call.service).world, s.ids, call.command).Ok?
    requires var s' := Serve(s, call);
             && |s.t.world.events| <= |s'.t.world.events| == |s'.ids|
             && !StampedInOrder(s.t.world.events, s'.t.world.events, s'.ids)
    ensures var s' := Serve(s, call);
            && |s'.ids| == |s'.t.world.events| && IsNewest(s'.t.world.events, s'.ids, Some(e), k)
            && k < top && LiveOn(s'.t.world.events, e, top)
  {
    var w, s' := Attached(s, call.service).world, Serve(s, call);
    var events, after, ids := s.t.world.events, s'.t.world.events, s'.ids;
    var c := ServedIsCommand(s, call);
    var i, j :| 0 <= i < |events| <= j < |after| && LiveOn(after, after[j].entity, i) && Live(after, j)
                && !Earlier(after, ids, i, j);
    e, top := after[j].entity, j;
    k := NewestExists(after, ids, Some(e), j);
    if k >= |events| && k != j {
      OneUndoable(w, c, if k < j then j else k);
    }
  }

  /** What an accepted update by an instance without a last event time appends. */
  lemma FreshUpdate(w: World, c: Command)
    requires (c.UpdateRow? || c.UpdateCriterion?) && Execute(w, c).Ok? && w.lastEventAt.None?
    ensures var event := Execute(w, c).value.events[|w.events|];
            && Execute(w, c).value.events == w.events + [event] && event.kind.Undoable() && event.reverses.None?
            && event.entity == (if c.UpdateRow? then c.id else c.goal) && event.at == c.now
  {
  }

  lemma OneMoreInOrder(events: seq<Event>, ids: seq<Id>, event: Event, id: Id)
    requires |ids| == |events| && event.kind.Undoable() && event.reverses.None?
    requires forall i :: 0 <= i < |events| ==> events[i].reverses != Some(|events|)
    ensures StampedInOrder(events, events + [event], ids + [id])
            <==> forall i :: 0 <= i < |events| && LiveOn(events, event.entity, i) ==>
                   events[i].at < event.at || (events[i].at == event.at && ids[i] < id)
  {
    var n, after := |events|, events + [event];
    AppendLiveness(events, event, event.entity);
    assert Live(after, n);
    forall i | 0 <= i < n
      ensures Earlier(after, ids + [id], i, n) <==> events[i].at < event.at || (events[i].at == event.at && ids[i] < id)
    {
      assert after[i] == events[i] && (ids + [id])[i] == ids[i];
    }
  }

  /** What the clock must read: an update by an instance that has not stamped an event yet
      is in order exactly if its clock is past the time of every live event of the entity,
      or shows the same time and its identifier is greater. */
  lemma FreshInstanceInOrderIff(s: Shared, call: Call)
    requires SharedOk(s) && Numbered(s, call) && call.service !in s.last
    requires (call.command.UpdateRow? || call.command.UpdateCriterion?)
             && Execute(Attached(s, call.service).world, call.command).Ok?
    ensures var s', events := Serve(s, call), s.t.world.events;
            var e := if call.command.UpdateRow? then call.command.id else call.command.goal;
            && |events| <= |s'.t.world.events| == |s'.ids| && |call.ids| == 1
            && (StampedInOrder(events, s'.t.world.events, s'.ids)
                <==> forall i :: 0 <= i < |events| && LiveOn(events, e, i) ==>
                       events[i].at < call.command.now || (events[i].at == call.command.now && s.ids[i] < call.ids[0]))
  {
    var w := Attached(s, call.service).world;
    FreshUpdate(w, call.command);
    var event := Execute(w, call.command).value.events[|w.events|];
    assert call.ids == [call.ids[0]];
    assert forall i :: 0 <= i < |w.events| ==> w.events[i].reverses != Some(|w.events|);
    OneMoreInOrder(w.events, s.ids, event, call.ids[0]);
  }

  // ----- every history

  /** Every call numbers its events and keeps the clock condition. */
  ghost predicate InOrder(s: Shared, call: Call)
    requires |s.ids| == |s.t.world.events|
  {
    && Numbered(s, call)
    && var s' := Serve(s, call);
       |s.t.world.events| <= |s'.t.world.events| == |s'.ids|
       && StampedInOrder(s.t.world.events, s'.t.world.events, s'.ids)
  }

  const NOTHING := Shared(Traced(EMPTY, []), [], map[])

  /** The state after a history, or None if a call was not in order. */
  ghost function History(calls: seq<Call>): (r: Option<Shared>)
    ensures r.Some? ==> |r.value.ids| == |r.value.t.world.events|
    decreases |calls|
  {
    if calls == [] then Some(NOTHING)
    else
      var before := History(calls[..|calls| - 1]);
      if before.Some? && InOrder(before.value, calls[|calls| - 1]) then Some(Serve(before.value, calls[|calls| - 1])) else None
  }

  lemma {:induction false} HistoryIsOk(calls: seq<Call>)
    requires History(calls).Some?
    ensures SharedOk(History(calls).value)
    decreases |calls|
  {
    if calls == [] {
      ReachableGraphsOk([]);
    } else {
      var before, call := History(calls[..|calls| - 1]).value, calls[|calls| - 1];
      HistoryIsOk(calls[..|calls| - 1]);
      ServeKeepsStacks(before, call);
      if ServeResult(Attached(before, call.service).world, before.ids, call.command).Ok? {
        OrderKeptIff(before, call);
      }
    }
  }

  lemma ServedUndoRestoresRow(t: Traced, ids: seq<Id>, c: Command, k: nat)
    requires StacksOk(t) && |ids| == |t.world.events| && DistinctIds(ids) && LiveInOrder(t.world.events, ids)
    requires c.Undo? && ServeResult(t.world, ids, c).Ok? && IsNewest(t.world.events, ids, c.entity, k)
    ensures |t.before| == |t.world.events|
    ensures var w, w', id := t.world, ServeResult(t.world, ids, c).value, t.world.events[k].entity;
            && id in t.before[k].rows && w'.rows == w.rows[id := t.before[k].rows[id]]
            && |w'.events| > |w.events| && w'.events[|w.events|].reverses == Some(k)
  {
    ServedUndo(t.world, ids, c, k);
    NewestIsTop(t.world.events, ids, c.entity, k);
    TopOfStack(t, t.world.events[k].entity, k);
  }

  /** Over every history of any number of service instances whose undoable events are
      stamped after the live ones of their entity: an accepted undo, which finds its event
      by time and identifier, gives the entity back the whole row it had just before the
      command that appended the event. */
  lemma SharedUndoRestoresRow(calls: seq<Call>, service: ServiceId, entity: Option<Id>, now: Time) returns (k: nat)
    requires History(calls).Some?
    requires var s := History(calls).value; ServeResult(Attached(s, service).world, s.ids, Undo(entity, now)).Ok?
    ensures var s := History(calls).value;
            var w, w' := s.t.world, ServeResult(Attached(s, service).world, s.ids, Undo(entity, now)).value;
            && |s.t.before| == |w.events| && IsNewest(w.events, s.ids, entity, k)
            && var id, past := w.events[k].entity, s.t.before[k];
               && id in past.rows && w'.rows == w.rows[id := past.rows[id]]
               && |w'.events| > |w.events| && w'.events[|w.events|].reverses == Some(k)
  {
    HistoryIsOk(calls);
    var s := History(calls).value;
    k :| IsNewest(s.t.world.events, s.ids, entity, k);
    AttachedOk(s, service);
    ServedUndoRestoresRow(Attached(s, service), s.ids, Undo(entity, now), k);
  }

  // ----- column constraints over every history in order

  lemma {:induction false} HistoryRowsAreValid(calls: seq<Call>)
    requires History(calls).Some?
    ensures HistoryValid(History(calls).value.t)
    decreases |calls|
  {
    HistoryIsOk(calls);
    if calls != [] {
      var before, call := History(calls[..|calls| - 1]).value, calls[|calls| - 1];
      HistoryRowsAreValid(calls[..|calls| - 1]);
      HistoryIsOk(calls[..|calls| - 1]);
      ServeKeepsValid(before, call);
    }
  }

  lemma AttachedValid(s: Shared, service: ServiceId)
    requires SharedOk(s) && HistoryValid(s.t)
    ensures HistoryValid(Attached(s, service))
  {
    AttachedOk(s, service);
    assert Attached(s, service).before == s.t.before && Attached(s, service).world.rows == s.t.world.rows;
  }

  lemma ServeIsStep(s: Shared, call: Call, c: Command)
    requires SharedOk(s) && Execute(Attached(s, call.service).world, c).Ok?
    requires Execute(Attached(s, call.service).world, c) == ServeResult(Attached(s, call.service).world, s.ids, call.command)
    ensures Serve(s, call).t == TracedStep(Attached(s, call.service), c)
  {
    var t, w := Attached(s, call.service), Execute(Attached(s, call.service).world, c).value;
    assert TracedStep(t, c) == Traces(t, w);
  }

  lemma ServeKeepsValid(s: Shared, call: Call)
    requires SharedOk(s) && Numbered(s, call) && HistoryValid(s.t)
    ensures HistoryValid(Serve(s, call).t)
  {
    var t := Attached(s, call.service);
    if ServeResult(t.world, s.ids, call.command).Ok? {
      AttachedOk(s, call.service);
      AttachedValid(s, call.service);
      var c := ServedIsCommand(s, call);
      StepKeepsStacks(t, c);
      StepKeepsValid(t, c);
      ServeIsStep(s, call, c);
    }
  }

  /** In every history in order, through any undos by any instances: a row is in its completed
      status exactly when its completion time is set, and a deadline type has a deadline. */
  lemma SharedRowsStayValid(calls: seq<Call>)
    requires History(calls).Some?
    ensures var w := History(calls).value.t.world;
            forall id :: id in w.rows ==> id in w.entities && RowOk(w.entities[id].kind, w.rows[id])
  {
    HistoryRowsAreValid(calls);
  }

  // ----- graphs over every history, in order or not

  /** The state after a history whose calls only number their events. */
  ghost function AnyHistory(calls: seq<Call>): (r: Option<Shared>)
    ensures r.Some? ==> |r.value.ids| == |r.value.t.world.events|
    decreases |calls|
  {
    if calls == [] then Some(NOTHING)
    else
      var before := AnyHistory(calls[..|calls| - 1]);
      if before.Some? && Numbered(before.value, calls[|calls| - 1]) then Some(Serve(before.value, calls[|calls| - 1])) else None
  }

  lemma ServeKeepsGraphs(s: Shared, call: Call)
    requires |s.ids| == |s.t.world.events| && GraphsOk(s.t.world) && Numbered(s, call)
    ensures GraphsOk(Serve(s, call).t.world)
  {
    var w, c := Attached(s, call.service).world, call.command;
    if ServeResult(w, s.ids, c).Ok? {
      AttachedGraphs(s, call.service);
      if c.Undo? {
        var k: nat :| IsNewest(w.events, s.ids, c.entity, k) && ServeResult(w, s.ids, c) == UndoEvent(w, k, c.now);
        UndoEventKeepsGraphs(w, k, c.now);
      } else {
        ExecuteKeepsGraphs(w, c);
      }
    }
  }

  /** Whatever the clocks of the instances read: parents are forests, dependencies a DAG,
      and supersession chains acyclic and linked both ways. */
  lemma {:induction false} SharedGraphsStayOk(calls: seq<Call>)
    requires AnyHistory(calls).Some?
    ensures GraphsOk(AnyHistory(calls).value.t.world)
    decreases |calls|
  {
    if calls == [] {
      ReachableGraphsOk([]);
    } else {
      SharedGraphsStayOk(calls[..|calls| - 1]);
      ServeKeepsGraphs(AnyHistory(calls[..|calls| - 1]).value, calls[|calls| - 1]);
    }
  }
}
