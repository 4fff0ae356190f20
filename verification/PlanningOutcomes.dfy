/** What each planning action leaves behind, table by table, and exactly when it is refused;
    and what the query offers, in terms of the draft a version came from. */
module PlanningOutcomes {
  import opened Basics
  import opened Graphs
  import opened PlanGraph
  import opened PlanNextAction
  import opened PlanningModel
  import opened PlanningSteps

  // ----- candidates

  /** The draft's items and dependencies are stored under their new identifiers, and nothing
      else belongs to the version. */
  ghost predicate StoresDraft(items: Items, deps: map<Id, set<Edge>>, version: Id, draft: Draft) {
    && HandlesAssigned(draft)
    && (forall i :: 0 <= i < |draft.items| ==>
          && draft.ids[draft.items[i].handle] in items
          && items[draft.ids[draft.items[i].handle]] == ItemRow(version, draft.items[i].ordinal, draft.items[i].title))
    && (forall x :: x in items && items[x].version == version ==>
          exists i :: 0 <= i < |draft.items| && draft.ids[draft.items[i].handle] == x)
    && version in deps
    && (forall h, k :: h in draft.ids && k in draft.ids ==>
          ((draft.ids[h], draft.ids[k]) in deps[version] <==> (h, k) in draft.dependencies))
    && (forall e :: e in deps[version] ==> e.0 in draft.ids.Values && e.1 in draft.ids.Values)
  }

  ghost predicate HandlesAssigned(draft: Draft) {
    && (forall i :: 0 <= i < |draft.items| ==> draft.items[i].handle in draft.ids)
    && (forall i, j :: 0 <= i < j < |draft.items| ==> draft.items[i].handle != draft.items[j].handle)
    && (forall h, k :: h in draft.ids && k in draft.ids && draft.ids[h] == draft.ids[k] ==> h == k)
    && (forall e :: e in draft.dependencies ==> e.0 in draft.ids && e.1 in draft.ids)
  }

  lemma {:induction false} PersistedItemsHold(draft: Draft, version: Id, n: nat)
    requires n <= |draft.items| && HandlesAssigned(draft)
    ensures var items := PersistedItems(draft, version, n);
            && (forall i :: 0 <= i < n ==>
                  && draft.ids[draft.items[i].handle] in items
                  && items[draft.ids[draft.items[i].handle]] == ItemRow(version, draft.items[i].ordinal, draft.items[i].title))
            && (forall x :: x in items ==> exists i :: 0 <= i < n && draft.ids[draft.items[i].handle] == x)
  {
    if n > 0 {
      PersistedItemsHold(draft, version, n - 1);
    }
  }

  lemma PersistedEdgesHold(draft: Draft)
    requires HandlesAssigned(draft)
    ensures forall e :: e in EdgeSet(draft.dependencies) ==> e.0 in draft.ids && e.1 in draft.ids
    ensures var edges := PersistedEdges(EdgeSet(draft.dependencies), draft.ids);
            && (forall h, k :: h in draft.ids && k in draft.ids ==>
                  ((draft.ids[h], draft.ids[k]) in edges <==> (h, k) in draft.dependencies))
            && (forall e :: e in edges ==> e.0 in draft.ids.Values && e.1 in draft.ids.Values)
  {
    var edges := PersistedEdges(EdgeSet(draft.dependencies), draft.ids);
    forall h, k | h in draft.ids && k in draft.ids
      ensures (draft.ids[h], draft.ids[k]) in edges <==> (h, k) in draft.dependencies
    {
      if (h, k) in draft.dependencies {
        assert (h, k) in EdgeSet(draft.dependencies);
      }
      if (draft.ids[h], draft.ids[k]) in edges {
        var e :| e in EdgeSet(draft.dependencies) && (draft.ids[e.0], draft.ids[e.1]) == (draft.ids[h], draft.ids[k]);
        assert e == (h, k);
      }
    }
  }

  lemma CandidateAssigned(s: Planning, plan: Id, version: Id, draft: Draft)
    requires CreateCandidateResult(s, plan, version, draft).Ok?
    ensures HandlesAssigned(draft) && forall h :: h in draft.ids ==> draft.ids[h] !in s.items && draft.ids[h] !in s.progress
  {
    EndpointsAssigned(draft);
    assert forall e :: e in draft.dependencies ==> e in EdgeSet(draft.dependencies);
    forall i, j | 0 <= i < j < |draft.items| ensures draft.items[i].handle != draft.items[j].handle {
      assert Handles(draft.items)[i] != Handles(draft.items)[j];
    }
  }

  lemma CandidateStored(s: Planning, plan: Id, version: Id, draft: Draft)
    requires CreateCandidateResult(s, plan, version, draft).Ok? && forall i :: i in s.items ==> s.items[i].version in s.versions
    ensures var after := CreateCandidateResult(s, plan, version, draft).value;
            StoresDraft(after.items, after.deps, version, draft) && Grows(s.items, after.items)
  {
    CandidateAssigned(s, plan, version, draft);
    PersistedItemsHold(draft, version, |draft.items|);
    PersistedEdgesHold(draft);
    var more := PersistedItems(draft, version, |draft.items|);
    var after := CreateCandidateResult(s, plan, version, draft).value;
    assert after.items == s.items + more;
    forall x | x in s.items ensures x !in more {}
  }

  /** The versions after a new candidate: it, and the one it replaces superseded. */
  ghost predicate CandidateTakesOver(versions: Versions, after: Versions, plan: Id, version: Id, draft: Draft) {
    && version !in versions && after.Keys == versions.Keys + {version}
    && (forall v :: v in versions ==>
          after[v] == if versions[v].plan == plan && versions[v].status == Candidate
                      then versions[v].(status := Superseded) else versions[v])
    && after[version].plan == plan && after[version].status == Candidate && after[version].approval.None?
    && after[version].approach == draft.approach && after[version].rationale == draft.rationale
    && after[version].basedOn == draft.basedOn
    && (forall v :: v in versions && versions[v].plan == plan ==> versions[v].number < after[version].number)
    && (after[version].number == 1
        || exists v :: v in versions && versions[v].plan == plan && versions[v].number + 1 == after[version].number)
  }

  lemma CandidateOutcome(s: Planning, plan: Id, version: Id, draft: Draft)
    requires CreateCandidateResult(s, plan, version, draft).Ok?
    ensures var after := CreateCandidateResult(s, plan, version, draft).value;
            && CandidateTakesOver(s.versions, after.versions, plan, version, draft)
            && after == s.(versions := after.versions, items := after.items, deps := after.deps)
            && (forall v :: v in s.deps && v != version ==> v in after.deps && after.deps[v] == s.deps[v])
  {
    var after := CreateCandidateResult(s, plan, version, draft).value;
    var own := VersionsOf(s.versions, plan);
    assert forall v :: v in s.versions && s.versions[v].plan == plan ==> v in own;
    assert after.versions[version].number == LargestNumber(s.versions, own) + 1;
  }

  /** A candidate is refused for its payload, a taken identifier, an unknown plan, a basis in
      another plan, or a dependency cycle, in this order. */
  lemma CandidateRefused(s: Planning, plan: Id, version: Id, draft: Draft)
    ensures var r := CreateCandidateResult(s, plan, version, draft);
            && (r == Err(InvalidPayload) <==> !PayloadFits(draft))
            && (r == Err(Conflict) <==> PayloadFits(draft) && !IdentifiersFit(s, version, draft))
            && (r == Err(NotFound) <==> PayloadFits(draft) && IdentifiersFit(s, version, draft) && plan !in s.plans)
            && (r == Err(InvalidBasis) <==>
                  && PayloadFits(draft) && IdentifiersFit(s, version, draft) && plan in s.plans && draft.basedOn.Some?
                  && (draft.basedOn.value !in s.versions || s.versions[draft.basedOn.value].plan != plan))
            && (r.Err? && r.error == DependencyCycle ==>
                  exists cycle :: IsPath(EdgeSet(draft.dependencies), cycle) && |cycle| > 1 && cycle[0] == cycle[|cycle| - 1])
            && (r.Ok? ==> !exists cycle :: IsPath(EdgeSet(draft.dependencies), cycle) && |cycle| > 1 && cycle[0] == cycle[|cycle| - 1])
            && (r.Ok? || r.error in {InvalidPayload, Conflict, NotFound, InvalidBasis, DependencyCycle})
  {
    PayloadFitsIff(draft);
    if cycle :| IsPath(EdgeSet(draft.dependencies), cycle) && |cycle| > 1 && cycle[0] == cycle[|cycle| - 1] {
      assert IsCycle(EdgeSet(draft.dependencies), cycle);
    }
    if !Acyclic(EdgeSet(draft.dependencies)) {
      var cycle :| IsCycle(EdgeSet(draft.dependencies), cycle);
      assert IsPath(EdgeSet(draft.dependencies), cycle) && |cycle| > 1 && cycle[0] == cycle[|cycle| - 1];
    }
  }

  ghost predicate PayloadFits(draft: Draft) {
    && (forall i, j :: 0 <= i < j < |draft.items| ==>
          draft.items[i].handle != draft.items[j].handle && draft.items[i].ordinal != draft.items[j].ordinal)
    && (forall i, j :: 0 <= i < j < |draft.dependencies| ==> draft.dependencies[i] != draft.dependencies[j])
    && (forall e :: e in draft.dependencies ==> e.0 != e.1 && Names(draft, e.0) && Names(draft, e.1))
  }

  ghost predicate Names(draft: Draft, handle: Id) {
    exists i :: 0 <= i < |draft.items| && draft.items[i].handle == handle
  }

  ghost predicate IdentifiersFit(s: Planning, version: Id, draft: Draft) {
    && version !in s.versions
    && (forall i :: 0 <= i < |draft.items| ==> draft.items[i].handle in draft.ids)
    && (forall h, k :: h in draft.ids && k in draft.ids && h != k ==> draft.ids[h] != draft.ids[k])
    && (forall h :: h in draft.ids ==> draft.ids[h] !in s.items && draft.ids[h] !in s.progress)
  }

  lemma NamedHandles(draft: Draft, handle: Id)
    ensures handle in Elements(Handles(draft.items)) <==> Names(draft, handle)
  {
    if Names(draft, handle) {
      var i :| 0 <= i < |draft.items| && draft.items[i].handle == handle;
      assert Handles(draft.items)[i] == handle;
    }
  }

  lemma PayloadFitsIff(draft: Draft)
    ensures PayloadFits(draft) <==> WellFormed(Handles(draft.items), Ordinals(draft.items), draft.dependencies)
  {
    var handles, ordinals := Handles(draft.items), Ordinals(draft.items);
    forall h { NamedHandles(draft, h); }
    if PayloadFits(draft) {
      forall i, j | 0 <= i < j < |handles| ensures handles[i] != handles[j] && ordinals[i] != ordinals[j] {
        assert draft.items[i].handle != draft.items[j].handle;
      }
    } else if WellFormed(handles, ordinals, draft.dependencies) {
      forall i, j | 0 <= i < j < |draft.items|
        ensures draft.items[i].handle != draft.items[j].handle && draft.items[i].ordinal != draft.items[j].ordinal
      {
        assert handles[i] != handles[j] && ordinals[i] != ordinals[j];
      }
    }
  }

  // ----- messages that authorize

  /** The source is a user's message. */
  ghost predicate Authorizes(s: Planning, source: Option<Id>, message: Id) {
    && source.Some? && source.value in s.sources && s.sources[source.value].isUserMessage
    && s.sources[source.value].message == Some(message)
    && message in s.messages && s.messages[message].author == User
  }

  /** Before the user's message the assistant showed the version in the same conversation. */
  ghost predicate WasShown(s: Planning, version: Id, message: Id) {
    message in s.messages
    && exists shown :: && (version, shown) in s.presentations && shown in s.messages && s.messages[shown].author == Assistant
                       && s.messages[shown].conversation == s.messages[message].conversation
                       && s.presentations[(version, shown)] <= s.messages[message].sentAt
  }

  ghost predicate ByUser(s: Planning, source: Option<Id>) {
    exists message :: Authorizes(s, source, message)
  }

  ghost predicate ShownTo(s: Planning, source: Option<Id>, version: Id) {
    exists message :: Authorizes(s, source, message) && WasShown(s, version, message)
  }

  lemma UserMessageIs(s: Planning, source: Option<Id>, version: Id)
    ensures UserMessage(s.sources, s.messages, source).Some? <==> ByUser(s, source)
    ensures var message := UserMessage(s.sources, s.messages, source);
            ShownTo(s, source, version) <==> message.Some? && Presented(s.presentations, s.messages, version, message.value)
  {
    var row := UserMessage(s.sources, s.messages, source);
    if row.Some? {
      var message := s.sources[source.value].message.value;
      assert Authorizes(s, source, message);
      if Presented(s.presentations, s.messages, version, row.value) {
        var k :| k in s.presentations && PresentedBy(s.presentations, s.messages, version, row.value, k);
        assert (version, k.1) in s.presentations;
        assert WasShown(s, version, message);
      }
      if WasShown(s, version, message) {
        var shown :| (version, shown) in s.presentations && shown in s.messages && s.messages[shown].author == Assistant
                     && s.messages[shown].conversation == s.messages[message].conversation
                     && s.presentations[(version, shown)] <= s.messages[message].sentAt;
        assert PresentedBy(s.presentations, s.messages, version, row.value, (version, shown));
      }
    }
  }

  ghost predicate Stored(s: Planning, version: Id) {
    version in s.versions && s.versions[version].plan in s.plans
  }

  /** A presentation is recorded once, of a stored version, by an assistant message. */
  lemma PresentOutcome(s: Planning, version: Id, message: Id, now: Time)
    ensures var r := PresentResult(s, version, message, now);
            && (r == Err(NotFound) <==> !Stored(s, version))
            && (r == Err(NotAssistantMessage) <==>
                  Stored(s, version) && !(message in s.messages && s.messages[message].author == Assistant))
            && (r.Ok? <==> Stored(s, version) && message in s.messages && s.messages[message].author == Assistant)
            && (r.Ok? ==>
                  && r.value == s.(presentations := r.value.presentations)
                  && r.value.presentations.Keys == s.presentations.Keys + {(version, message)}
                  && (forall k :: k in s.presentations ==> r.value.presentations[k] == s.presentations[k])
                  && ((version, message) !in s.presentations ==> r.value.presentations[(version, message)] == now))
  {
  }

  /** Only the current candidate can be rejected, by a user's message; the same message again
      changes nothing. */
  lemma RejectOutcome(s: Planning, version: Id, source: Option<Id>)
    ensures var r := RejectResult(s, version, source);
            && (r == Err(NotUserMessage) <==> !ByUser(s, source))
            && (r == Err(NotFound) <==> ByUser(s, source) && !Stored(s, version))
            && (r.Ok? <==>
                  && ByUser(s, source) && Stored(s, version)
                  && (s.versions[version].status == Candidate
                      || (s.versions[version].status == Rejected && (version, source.value) in s.rejections)))
            && (r.Ok? && s.versions[version].status == Rejected ==> r.value == s)
            && (r.Ok? && s.versions[version].status == Candidate ==>
                  && r.value == s.(versions := r.value.versions, rejections := s.rejections + {(version, source.value)})
                  && r.value.versions.Keys == s.versions.Keys
                  && forall v :: v in s.versions ==>
                       r.value.versions[v] == if v == version then s.versions[v].(status := Rejected) else s.versions[v])
            && (r.Ok? || r.error in {NotUserMessage, NotFound, NotCandidate})
  {
    UserMessageIs(s, source, version);
  }

  // ----- approval

  /** The version is approved with the given approval, and the plan's approved one is superseded. */
  ghost predicate TakesApproval(versions: Versions, after: Versions, version: Id, approval: Option<Approval>)
    requires version in versions
  {
    && after.Keys == versions.Keys
    && forall v :: v in versions ==>
         after[v] == if v == version then versions[v].(status := Approved, approval := approval)
                     else if versions[v].plan == versions[version].plan && versions[v].status == Approved
                     then versions[v].(status := Superseded) else versions[v]
  }

  /** The plan's strategy, a new one if it had none, takes the text of the version. */
  ghost predicate TakesStrategy(s: Planning, after: Planning, version: Id, source: Id, newId: Id, now: Time)
    requires Stored(s, version)
  {
    var plan, row := s.versions[version].plan, s.versions[version];
    var id := if s.plans[plan].Some? then s.plans[plan].value else newId;
    && after.plans == s.plans[plan := Some(id)]
    && after.strategies == s.strategies[id := StrategyRow(row.approach, row.rationale, version, source, now)]
  }

  /** Every item of the version starts out unstarted; no other progress changes. */
  ghost predicate StartsProgress(s: Planning, after: Planning, version: Id, source: Id) {
    && (forall i :: i in after.progress <==> i in s.progress || (i in s.items && s.items[i].version == version))
    && (forall i :: i in after.progress ==>
          after.progress[i] == if i in s.items && s.items[i].version == version then ProgressRow(NotStarted, None, source)
                               else s.progress[i])
  }

  ghost predicate ApprovedAlready(s: Planning, version: Id, source: Option<Id>) {
    && version in s.versions && s.versions[version].status == Approved && source.Some?
    && s.versions[version].approval.Some? && s.versions[version].approval.value.source == source.value
  }

  /** A strategy that is there, or an identifier for a new one. */
  ghost predicate StrategyFits(s: Planning, version: Id, newId: Id)
    requires Stored(s, version)
  {
    var strategy := s.plans[s.versions[version].plan];
    if strategy.Some? then strategy.value in s.strategies else newId !in s.strategies
  }

  /** A candidate is approved exactly if a user's message asks for it and the assistant showed
      it in that conversation before. */
  lemma ApproveOutcome(s: Planning, version: Id, source: Option<Id>, newId: Id, now: Time)
    ensures var r := ApproveResult(s, version, source, newId, now);
            && (r.Ok? <==>
                  && ByUser(s, source) && Stored(s, version)
                  && (ApprovedAlready(s, version, source)
                      || (s.versions[version].status == Candidate && ShownTo(s, source, version) && StrategyFits(s, version, newId))))
            && (r.Ok? && s.versions[version].status != Candidate ==> r.value == s)
            && (r.Ok? && s.versions[version].status == Candidate ==>
                  && TakesApproval(s.versions, r.value.versions, version, Some(Approval(source.value, now)))
                  && TakesStrategy(s, r.value, version, source.value, newId, now)
                  && StartsProgress(s, r.value, version, source.value)
                  && r.value == s.(versions := r.value.versions, plans := r.value.plans, strategies := r.value.strategies,
                                   progress := r.value.progress))
  {
    UserMessageIs(s, source, version);
    if ApproveResult(s, version, source, newId, now).Ok? && s.versions[version].status == Candidate {
      ApprovingWrites(s, version, source.value, newId, now);
    }
  }

  lemma ApprovingWrites(s: Planning, version: Id, source: Id, newId: Id, now: Time)
    requires Stored(s, version) && s.versions[version].status == Candidate
    ensures var after := Approving(s, version, source, newId, now);
            && TakesApproval(s.versions, after.versions, version, Some(Approval(source, now)))
            && TakesStrategy(s, after, version, source, newId, now) && StartsProgress(s, after, version, source)
            && after == s.(versions := after.versions, plans := after.plans, strategies := after.strategies, progress := after.progress)
  {
  }

  /** Why an approval is refused, in the order of the checks. */
  lemma ApproveRefused(s: Planning, version: Id, source: Option<Id>, newId: Id, now: Time)
    ensures var r := ApproveResult(s, version, source, newId, now);
            && (r == Err(NotUserMessage) <==> !ByUser(s, source))
            && (r == Err(NotFound) <==> ByUser(s, source) && !Stored(s, version))
            && (r == Err(NotCandidate) <==>
                  && ByUser(s, source) && Stored(s, version) && !ApprovedAlready(s, version, source)
                  && s.versions[version].status != Candidate)
            && (r == Err(NotPresented) <==>
                  && ByUser(s, source) && Stored(s, version) && s.versions[version].status == Candidate
                  && !ShownTo(s, source, version))
  {
    UserMessageIs(s, source, version);
  }

  /** A version is reactivated exactly if it was approved once and is superseded now, was shown
      in the user's conversation, and another version is the approved one. */
  lemma ReactivateOutcome(s: Planning, version: Id, source: Option<Id>, newId: Id, now: Time)
    ensures var r := ReactivateResult(s, version, source, newId, now);
            && (r.Ok? <==>
                  && ByUser(s, source) && Stored(s, version)
                  && (s.versions[version].status == Approved
                      || (&& s.versions[version].status == Superseded && s.versions[version].approval.Some?
                          && ShownTo(s, source, version) && HasApproved(s, s.versions[version].plan)
                          && StrategyFits(s, version, newId))))
            && (r.Ok? && s.versions[version].status == Approved ==> r.value == s)
            && (r.Ok? && s.versions[version].status == Superseded ==>
                  && TakesApproval(s.versions, r.value.versions, version, s.versions[version].approval)
                  && TakesStrategy(s, r.value, version, source.value, newId, now)
                  && r.value == s.(versions := r.value.versions, plans := r.value.plans, strategies := r.value.strategies))
  {
    UserMessageIs(s, source, version);
    if Stored(s, version) {
      assert HasApproved(s, s.versions[version].plan) <==>
             exists v :: v in s.versions && IsOf(s.versions, v, s.versions[version].plan, Approved);
    }
  }

  ghost predicate HasApproved(s: Planning, plan: Id) {
    exists v :: v in s.versions && s.versions[v].plan == plan && s.versions[v].status == Approved
  }

  lemma ReactivateRefused(s: Planning, version: Id, source: Option<Id>, newId: Id, now: Time)
    ensures var r := ReactivateResult(s, version, source, newId, now);
            && (r == Err(NotUserMessage) <==> !ByUser(s, source))
            && (r == Err(NotFound) <==> ByUser(s, source) && !Stored(s, version))
            && (r == Err(NotFormerlyApproved) <==>
                  && ByUser(s, source) && Stored(s, version) && s.versions[version].status != Approved
                  && !(s.versions[version].status == Superseded && s.versions[version].approval.Some?))
            && (r == Err(NotPresented) <==>
                  && ByUser(s, source) && Stored(s, version) && s.versions[version].status == Superseded
                  && s.versions[version].approval.Some? && !ShownTo(s, source, version))
            && (r == Err(NoCurrentApproved) <==>
                  && ByUser(s, source) && Stored(s, version) && s.versions[version].status == Superseded
                  && s.versions[version].approval.Some? && ShownTo(s, source, version)
                  && !HasApproved(s, s.versions[version].plan))
  {
    UserMessageIs(s, source, version);
    if Stored(s, version) {
      assert HasApproved(s, s.versions[version].plan) <==>
             exists v :: v in s.versions && IsOf(s.versions, v, s.versions[version].plan, Approved);
    }
  }

  // ----- progress

  /** An update stores the status, the note and the source it is given, for every status, and
      touches no other item; the same status from the same source changes nothing. */
  lemma UpdateProgressOutcome(s: Planning, item: Id, status: ProgressStatus, note: Option<string>, source: Option<Id>)
    ensures var r := UpdateProgressResult(s, item, status, note, source);
            && (r.Ok? <==>
                  && ByUser(s, source) && item in s.items && Stored(s, s.items[item].version)
                  && s.versions[s.items[item].version].status == Approved && item in s.progress)
            && (r == Err(NotUserMessage) <==> !ByUser(s, source))
            && (r == Err(NotFound) <==> ByUser(s, source) && !(item in s.items && Stored(s, s.items[item].version)))
            && (r == Err(NotApproved) <==>
                  && ByUser(s, source) && item in s.items && Stored(s, s.items[item].version)
                  && s.versions[s.items[item].version].status != Approved)
            && (r.Ok? ==>
                  && r.value == s.(progress := r.value.progress) && r.value.progress.Keys == s.progress.Keys
                  && (forall i :: i in s.progress && i != item ==> r.value.progress[i] == s.progress[i])
                  && (if s.progress[item].status == status && s.progress[item].source == source.value then r.value == s
                      else && r.value.progress[item].status == status && r.value.progress[item].note == note
                           && r.value.progress[item].source == source.value))
  {
    UserMessageIs(s, source, 0);
  }
}
