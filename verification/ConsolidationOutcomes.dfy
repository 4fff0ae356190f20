/** What consolidation leaves behind, in terms of the evidence entries: who gains which
    entry, what the confidence weighs, and which status each live observation has. */
module ConsolidationOutcomes {
  import opened Basics
  import opened Graphs
  import opened Consolidation

  // ----- confidence, over every run

  /** In every run the confidence is the weight of the supporting entries over that of all,
      corrections weighing double. */
  lemma EveryConfidenceIsTheShare(steps: seq<Step>, o: Id)
    requires o in Run(steps)
    ensures IsTheShare(Run(steps)[o].confidence, Run(steps)[o].evidence)
  {
    ReachableObservationsOk(steps);
    ConfidenceIsTheShare(Run(steps)[o].evidence);
  }

  // ----- corrections

  /** The last piece of evidence from some message is a correction. */
  ghost predicate Corrects(request: Request) {
    exists i :: 0 <= i < |request.supports| && request.supports[i].correction
                && forall j :: i < j < |request.supports| ==> request.supports[j].message != request.supports[i].message
  }

  /** Another live observation of the topic. */
  ghost predicate HasRival(observations: Observations, topic: Topic, o: Id) {
    exists p :: p in observations && p != o && observations[p].topic == topic && observations[p].status != Superseded
  }

  lemma CorrectionMeans(observations: Observations, request: Request, same: Id)
    ensures IsCorrection(Normalized(request), LiveOn(observations, request.topic) - {same})
            <==> Corrects(request) && HasRival(observations, request.topic, same)
  {
    var rivals := LiveOn(observations, request.topic) - {same};
    if HasRival(observations, request.topic, same) {
      var p :| p in observations && p != same && observations[p].topic == request.topic && observations[p].status != Superseded;
      assert p in rivals;
    }
    if rivals != {} {
      var p :| p in rivals;
      assert HasRival(observations, request.topic, same);
    }
    assert Normalized(request).supports == Distinct(request.supports);
    LastCorrects(request);
  }

  lemma LastCorrects(request: Request)
    ensures SomeCorrects(Distinct(request.supports)) <==> Corrects(request)
  {
    var distinct := Distinct(request.supports);
    DistinctIsLast(request.supports);
    if i :| 0 <= i < |distinct| && distinct[i].correction {
      assert IsLast(request.supports, distinct[i]);
    }
    if Corrects(request) {
      var d := CorrectionIsDistinct(request, distinct);
      assert SomeCorrects(distinct);
    }
  }

  ghost predicate SomeCorrects(supports: seq<Support>) {
    exists i :: 0 <= i < |supports| && supports[i].correction
  }

  lemma CorrectionIsDistinct(request: Request, distinct: seq<Support>) returns (d: nat)
    requires LastOfEach(request.supports, distinct) && Corrects(request)
    ensures d < |distinct| && distinct[d].correction
  {
    var i :| 0 <= i < |request.supports| && request.supports[i].correction
             && forall j :: i < j < |request.supports| ==> request.supports[j].message != request.supports[i].message;
    assert Mentions(request.supports, request.supports[i].message);
    d :| 0 <= d < |distinct| && distinct[d].message == request.supports[i].message;
    assert IsLast(request.supports, distinct[d]);
    SameLast(request.supports, distinct[d], i);
  }

  lemma SameLast(supports: seq<Support>, last: Support, i: nat)
    requires IsLast(supports, last) && i < |supports| && supports[i].message == last.message
    requires forall j :: i < j < |supports| ==> supports[j].message != supports[i].message
    ensures supports[i] == last
  {
    var k :| 0 <= k < |supports| && supports[k] == last && forall j :: k < j < |supports| ==> supports[j].message != last.message;
    assert k <= i && i <= k;
  }

  // ----- every live status, over every run

  /** The `k`-th consolidation was accepted. */
  ghost predicate Accepted(steps: seq<Step>, k: nat)
    requires k < |steps|
  {
    !Invalid(steps[k].request) && Chooses(Run(steps[..k]), steps[k].request, steps[k].same)
  }

  /** It was an explicit correction that settled the topic on `o`. */
  ghost predicate SettlesOn(steps: seq<Step>, k: nat, o: Id) {
    && k < |steps| && Accepted(steps, k) && steps[k].same == o && Corrects(steps[k].request)
    && HasRival(Run(steps[..k]), steps[k].request.topic, o)
  }

  /** The last accepted consolidation of the topic settled it on `o`. */
  ghost predicate JustSettled(steps: seq<Step>, topic: Topic, o: Id) {
    exists k: nat :: LastSettledAt(steps, topic, o, k)
  }

  ghost predicate LastSettledAt(steps: seq<Step>, topic: Topic, o: Id, k: nat) {
    SettlesOn(steps, k, o) && steps[k].request.topic == topic && NoneSince(steps, topic, k)
  }

  ghost predicate NoneSince(steps: seq<Step>, topic: Topic, k: nat) {
    forall j: nat :: k < j < |steps| ==> !Reopens(steps, topic, j)
  }

  ghost predicate Reopens(steps: seq<Step>, topic: Topic, j: nat) {
    j < |steps| && steps[j].request.topic == topic && Accepted(steps, j)
  }

  ghost predicate StatusIsRight(steps: seq<Step>, o: Id, row: Observation) {
    row.status != Superseded ==>
      if JustSettled(steps, row.topic, o) then row.status == Active else StatusFits(row)
  }

  lemma AcceptedBefore(steps: seq<Step>, k: nat)
    requires k < |steps| - 1
    ensures Accepted(steps, k) <==> Accepted(steps[..|steps| - 1], k)
  {
    assert steps[..|steps| - 1][..k] == steps[..k];
  }

  lemma SettlesBefore(steps: seq<Step>, k: nat, o: Id)
    requires k < |steps| - 1
    ensures SettlesOn(steps, k, o) <==> SettlesOn(steps[..|steps| - 1], k, o)
  {
    AcceptedBefore(steps, k);
    assert steps[..|steps| - 1][..k] == steps[..k];
  }

  lemma NoneSinceBefore(steps: seq<Step>, topic: Topic, k: nat)
    requires k < |steps| - 1 && (steps[|steps| - 1].request.topic != topic || !Accepted(steps, |steps| - 1))
    ensures NoneSince(steps, topic, k) <==> NoneSince(steps[..|steps| - 1], topic, k)
  {
    var most := steps[..|steps| - 1];
    forall j: nat ensures j < |most| ==> (Reopens(most, topic, j) <==> Reopens(steps, topic, j)) {
      if j < |most| {
        AcceptedBefore(steps, j);
      }
    }
  }

  lemma LastSettledBefore(steps: seq<Step>, topic: Topic, o: Id, k: nat)
    requires k < |steps| - 1 && (steps[|steps| - 1].request.topic != topic || !Accepted(steps, |steps| - 1))
    ensures LastSettledAt(steps, topic, o, k) <==> LastSettledAt(steps[..|steps| - 1], topic, o, k)
  {
    SettlesBefore(steps, k, o);
    NoneSinceBefore(steps, topic, k);
    assert steps[..|steps| - 1][k] == steps[k];
  }

  /** A last step that is refused or about another topic settles nothing here. */
  lemma SettledBefore(steps: seq<Step>, topic: Topic, o: Id)
    requires steps != [] && (steps[|steps| - 1].request.topic != topic || !Accepted(steps, |steps| - 1))
    ensures JustSettled(steps, topic, o) <==> JustSettled(steps[..|steps| - 1], topic, o)
  {
    var most := steps[..|steps| - 1];
    if k: nat :| LastSettledAt(steps, topic, o, k) {
      LastSettledBefore(steps, topic, o, k);
    }
    if k: nat :| LastSettledAt(most, topic, o, k) {
      LastSettledBefore(steps, topic, o, k);
    }
  }

  /** After an accepted step on the topic, that step alone decides. */
  lemma SettledNow(steps: seq<Step>, o: Id)
    requires steps != [] && Accepted(steps, |steps| - 1)
    ensures JustSettled(steps, steps[|steps| - 1].request.topic, o) <==> SettlesOn(steps, |steps| - 1, o)
  {
    var n := |steps| - 1;
    if SettlesOn(steps, n, o) {
      assert LastSettledAt(steps, steps[n].request.topic, o, n);
    }
    if k: nat :| LastSettledAt(steps, steps[n].request.topic, o, k) {
      assert Reopens(steps, steps[n].request.topic, n);
      assert k == n;
    }
  }

  /** What an accepted step makes of one observation. */
  lemma ConsolidatedStatus(before: Observations, request: Request, same: Id, o: Id)
    requires ObservationsOk(before) && Chooses(before, request, same)
    requires o in Consolidated(before, Normalized(request), same)
    ensures var after, corrected := Consolidated(before, Normalized(request), same)[o], Corrects(request) && HasRival(before, request.topic, same);
            && (o == same ==> after.topic == request.topic && after.status != Superseded)
            && (o != same ==> o in before && after.topic == before[o].topic)
            && (o != same && after.topic == request.topic && after.status != Superseded ==> !corrected && StatusFits(after))
            && (o != same && after.topic != request.topic ==> after == before[o])
            && (o == same && corrected ==> after.status == Active)
            && (o == same && !corrected ==> StatusFits(after))
  {
    CorrectionMeans(before, request, same);
    var row := Consolidated(before, Normalized(request), same)[o];
    if row.status == DerivedStatus(row.evidence) {
      DerivedFits(row);
    }
  }

  /** In every run each live observation has the status its evidence entries call for, except
      that one which an explicit correction has just settled is active. */
  lemma {:induction false} EveryStatusIsRight(steps: seq<Step>, o: Id)
    requires o in Run(steps)
    ensures StatusIsRight(steps, o, Run(steps)[o])
    decreases |steps|
  {
    var n := |steps| - 1;
    var most := steps[..n];
    if !Accepted(steps, n) {
      EveryStatusIsRight(most, o);
      SettledBefore(steps, Run(steps)[o].topic, o);
    } else {
      var before, step := Run(most), steps[n];
      ReachableObservationsOk(most);
      ConsolidatedStatus(before, step.request, step.same, o);
      if Run(steps)[o].topic == step.request.topic {
        SettledNow(steps, o);
      } else {
        EveryStatusIsRight(most, o);
        SettledBefore(steps, Run(steps)[o].topic, o);
      }
    }
  }

  // ----- what one consolidation writes

  /** The entries there were stay first; each message of the request that had none gains one,
      with the given stance and marked as its last piece of evidence says. */
  ghost predicate GainsEvidence(before: seq<Evidence>, after: seq<Evidence>, supports: seq<Support>, stance: Stance) {
    && |before| <= |after| && after[..|before|] == before
    && (forall i :: |before| <= i < |after| ==>
          after[i].stance == stance && !HasMessage(before, after[i].message)
          && exists k :: IsLastOf(supports, k) && supports[k].message == after[i].message
                         && supports[k].correction == after[i].correction)
    && (forall k :: 0 <= k < |supports| ==> HasMessage(after, supports[k].message))
    && OncePerMessage(after)
  }

  /** No later piece of evidence is from the same message. */
  ghost predicate IsLastOf(supports: seq<Support>, k: int) {
    0 <= k < |supports| && forall j :: k < j < |supports| ==> supports[j].message != supports[k].message
  }

  /** New entries come from the list, one for each message it mentions. */
  ghost predicate AddedFrom(before: seq<Evidence>, after: seq<Evidence>, distinct: seq<Support>, stance: Stance) {
    && |before| <= |after| && after[..|before|] == before
    && (forall i :: |before| <= i < |after| ==>
          after[i].stance == stance && !HasMessage(before, after[i].message)
          && exists d :: 0 <= d < |distinct| && distinct[d].message == after[i].message
                         && distinct[d].correction == after[i].correction)
  }

  lemma {:induction false} AddAllFrom(before: seq<Evidence>, distinct: seq<Support>, stance: Stance)
    ensures AddedFrom(before, AddAll(before, distinct, stance), distinct, stance)
  {
    if distinct == [] {
      assert before[..|before|] == before;
    } else {
      var n := |distinct| - 1;
      AddAllFrom(before, distinct[..n], stance);
      AddOneFrom(before, AddAll(before, distinct[..n], stance), distinct[..n], distinct[n], distinct, stance);
    }
  }

  lemma AddOneFrom(before: seq<Evidence>, most: seq<Evidence>, distinct: seq<Support>, last: Support, all: seq<Support>, stance: Stance)
    requires AddedFrom(before, most, distinct, stance) && all == distinct + [last]
    ensures AddedFrom(before, AddEvidence(most, last, stance), all, stance)
  {
    var after := AddEvidence(most, last, stance);
    forall i | |before| <= i < |after|
      ensures after[i].stance == stance && !HasMessage(before, after[i].message)
      ensures exists d :: 0 <= d < |all| && all[d].message == after[i].message && all[d].correction == after[i].correction
    {
      if i < |most| {
        var d :| 0 <= d < |distinct| && distinct[d].message == most[i].message && distinct[d].correction == most[i].correction;
        assert all[d] == distinct[d];
      } else {
        assert all[|distinct|] == last;
        PrefixHas(before, most, last.message);
      }
    }
    assert after[..|before|] == most[..|before|];
  }

  lemma PrefixHas(before: seq<Evidence>, more: seq<Evidence>, message: MessageId)
    requires |before| <= |more| && more[..|before|] == before
    ensures HasMessage(before, message) ==> HasMessage(more, message)
  {
    if HasMessage(before, message) {
      var j :| 0 <= j < |before| && before[j].message == message;
      assert more[j] == more[..|before|][j];
    }
  }

  lemma AddsTheLast(before: seq<Evidence>, supports: seq<Support>, stance: Stance)
    requires OncePerMessage(before)
    ensures GainsEvidence(before, AddAll(before, Distinct(supports), stance), supports, stance)
  {
    var distinct := Distinct(supports);
    var after := AddAll(before, distinct, stance);
    DistinctIsLast(supports);
    AddAllKeepsEntries(before, distinct, stance);
    AddAllFrom(before, distinct, stance);
    forall i | |before| <= i < |after|
      ensures exists k :: IsLastOf(supports, k) && supports[k].message == after[i].message && supports[k].correction == after[i].correction
    {
      var d :| 0 <= d < |distinct| && distinct[d].message == after[i].message && distinct[d].correction == after[i].correction;
      assert IsLast(supports, distinct[d]);
      var k :| 0 <= k < |supports| && supports[k] == distinct[d]
               && forall j :: k < j < |supports| ==> supports[j].message != distinct[d].message;
      assert IsLastOf(supports, k);
    }
    forall k | 0 <= k < |supports| ensures HasMessage(after, supports[k].message) {
      assert Mentions(supports, supports[k].message);
      var d :| 0 <= d < |distinct| && distinct[d].message == supports[k].message;
      assert HasMessage(after, distinct[d].message);
    }
  }

  /** The request supports the live observation that says the same, or a new one. It contradicts
      every other live observation of the topic, and supersedes them all if it is an explicit
      correction. Nothing else changes. */
  lemma ConsolidateOutcome(before: Observations, request: Request, same: Id)
    requires ObservationsOk(before) && Chooses(before, request, same)
    ensures var after := Consolidated(before, Normalized(request), same);
            && after.Keys == before.Keys + {same}
            && after[same].topic == request.topic && after[same].statement == request.statement && after[same].supersededBy.None?
            && GainsEvidence(if same in before then before[same].evidence else [], after[same].evidence, request.supports, Supports)
            && (same in before ==> before[same].topic == request.topic && before[same].statement == request.statement
                                   && before[same].status != Superseded)
            && (same !in before ==>
                  forall o :: o in before && before[o].topic == request.topic && before[o].status != Superseded ==>
                    before[o].statement != request.statement)
    ensures forall o :: o in before && o != same ==> OtherOutcome(before, request, same, o, Consolidated(before, Normalized(request), same))
  {
    var after := Consolidated(before, Normalized(request), same);
    var was := if same in before then before[same].evidence else [];
    AddsTheLast(was, request.supports, Supports);
    if same in before {
      assert SuccessorOk(before, same);
    }
    forall o | o in before && o != same ensures OtherOutcome(before, request, same, o, after) {
      OtherIs(before, request, same, o);
    }
  }

  ghost predicate OtherOutcome(before: Observations, request: Request, same: Id, o: Id, after: Observations) {
    && o in before && o in after
    && if before[o].topic == request.topic && before[o].status != Superseded
       then && GainsEvidence(before[o].evidence, after[o].evidence, request.supports, Contradicts)
            && after[o].topic == before[o].topic && after[o].statement == before[o].statement
            && (Corrects(request) ==> after[o].status == Superseded && after[o].supersededBy == Some(same))
            && (!Corrects(request) ==> after[o].status != Superseded && after[o].supersededBy == before[o].supersededBy)
       else after[o] == before[o]
  }

  lemma OtherIs(before: Observations, request: Request, same: Id, o: Id)
    requires ObservationsOk(before) && Chooses(before, request, same) && o in before && o != same
    ensures OtherOutcome(before, request, same, o, Consolidated(before, Normalized(request), same))
  {
    if before[o].topic == request.topic && before[o].status != Superseded {
      AddsTheLast(before[o].evidence, request.supports, Contradicts);
      CorrectionMeans(before, request, same);
      assert HasRival(before, request.topic, same);
    }
  }
}
