/** The event log's clock: one service stamps its events with strictly increasing times, so
    the newest event by time is the newest by position, which is what undo relies on. */
module WorldClock {
  import opened Basics
  import opened Graphs
  import opened WorldModel
  import opened WorldSpec

  ghost predicate ClockOk(events: seq<Event>, lastEventAt: Option<Time>) {
    && (forall i, j :: 0 <= i < j < |events| ==> events[i].at < events[j].at)
    && (events != [] ==> lastEventAt == Some(events[|events| - 1].at))
  }

  /** The log of `w'` is that of `w` with one more event, stamped after the last. */
  predicate Stamped(w: World, w': World, now: Time) {
    && |w'.events| == |w.events| + 1 && w'.events[..|w.events|] == w.events
    && w'.events[|w.events|].at == NextTime(w.lastEventAt, now) && w'.lastEventAt == Some(w'.events[|w.events|].at)
  }

  lemma StampedKeepsClock(w: World, w': World, now: Time)
    requires ClockOk(w.events, w.lastEventAt) && Stamped(w, w', now)
    ensures ClockOk(w'.events, w'.lastEventAt)
  {
    assert forall i :: 0 <= i < |w.events| ==> w'.events[i] == w.events[i];
  }

  /** Replacing a decision appends two events, one after the other. */
  lemma ReplacementStamps(w: World, c: Command)
    requires c.CreateDecision? && c.supersedes.Some? && Execute(w, c).Ok?
    ensures var between := Append(w, DecisionSuperseded, c.supersedes.value, [], None, c.now);
            Stamped(w, between, c.now) && Stamped(between, Execute(w, c).value, c.now)
  {
  }

  lemma DecisionKeepsClock(w: World, c: Command)
    requires ClockOk(w.events, w.lastEventAt) && c.CreateDecision? && Execute(w, c).Ok?
    ensures var w' := Execute(w, c).value; ClockOk(w'.events, w'.lastEventAt)
  {
    var w' := Execute(w, c).value;
    if c.supersedes.Some? {
      var between := Append(w, DecisionSuperseded, c.supersedes.value, [], None, c.now);
      ReplacementStamps(w, c);
      StampedKeepsClock(w, between, c.now);
      StampedKeepsClock(between, w', c.now);
    } else {
      StampedKeepsClock(w, w', c.now);
    }
  }

  lemma ExecuteKeepsClock(w: World, c: Command)
    requires ClockOk(w.events, w.lastEventAt) && Execute(w, c).Ok?
    ensures var w' := Execute(w, c).value; ClockOk(w'.events, w'.lastEventAt)
  {
    if c.CreateDecision? {
      DecisionKeepsClock(w, c);
    } else if Execute(w, c).value != w {
      assert Stamped(w, Execute(w, c).value, c.now);
      StampedKeepsClock(w, Execute(w, c).value, c.now);
    }
  }

  /** New events are stamped after the last one the log's owner knows of, none before `now`,
      each after the one before it, and the last of them is remembered. */
  ghost predicate StampedSince(events: seq<Event>, after: seq<Event>, last: Option<Time>, last': Option<Time>, now: Time) {
    && |events| <= |after|
    && (forall i :: |events| <= i < |after| ==>
          && after[i].at >= now && (last.Some? ==> after[i].at > last.value)
          && (i > |events| ==> after[i].at > after[i - 1].at))
    && last' == if |after| == |events| then last else Some(after[|after| - 1].at)
  }

  lemma OneStampSince(w: World, w': World, now: Time)
    requires Stamped(w, w', now)
    ensures StampedSince(w.events, w'.events, w.lastEventAt, w'.lastEventAt, now)
  {
  }

  lemma ExecuteStamps(w: World, c: Command)
    requires Execute(w, c).Ok?
    ensures var w' := Execute(w, c).value; StampedSince(w.events, w'.events, w.lastEventAt, w'.lastEventAt, c.now)
  {
    if c.CreateDecision? && c.supersedes.Some? {
      var between := Append(w, DecisionSuperseded, c.supersedes.value, [], None, c.now);
      ReplacementStamps(w, c);
      assert Execute(w, c).value.events[|w.events|] == between.events[|w.events|];
    } else if Execute(w, c).value != w {
      OneStampSince(w, Execute(w, c).value, c.now);
    }
  }

  lemma UndoStamps(w: World, k: nat, now: Time)
    requires k < |w.events| && UndoEvent(w, k, now).Ok?
    ensures var w' := UndoEvent(w, k, now).value; StampedSince(w.events, w'.events, w.lastEventAt, w'.lastEventAt, now)
  {
    OneStampSince(w, UndoEvent(w, k, now).value, now);
  }

  /** Whatever the clock reads, also when it stands still or runs backwards, the log of every
      run is stamped in the order it was appended, and the newest live event has the latest time. */
  lemma {:induction false} EventTimesIncrease(commands: seq<Command>, entity: Option<Id>)
    ensures var w := Run(commands);
            && ClockOk(w.events, w.lastEventAt)
            && var newest := Latest(w.events, entity, |w.events|);
               newest.Some? ==> forall i :: 0 <= i < |w.events| && i != newest.value && Live(w.events, i)
                                            && (entity.Some? ==> w.events[i].entity == entity.value)
                                            ==> w.events[i].at < w.events[newest.value].at
    decreases |commands|
  {
    if commands != [] {
      var before := Run(commands[..|commands| - 1]);
      EventTimesIncrease(commands[..|commands| - 1], entity);
      if Execute(before, commands[|commands| - 1]).Ok? {
        ExecuteKeepsClock(before, commands[|commands| - 1]);
      }
    }
  }
}
