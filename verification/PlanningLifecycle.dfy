/** What every run of the planning services keeps: the version lifecycle, numbering, the
    accepted strategy, item graphs, presentations, approvals and progress. */
module PlanningLifecycle {
  import opened Basics
  import opened Graphs
  import opened PlanningModel

  /** At most one candidate and one approved version per plan; only versions that were
      approved carry approval metadata. */
  ghost predicate LifecycleOk(versions: Versions) {
    && (forall v :: v in versions ==> ApprovalFits(versions[v]))
    && AtMostOne(versions, Candidate) && AtMostOne(versions, Approved)
  }

  ghost predicate AtMostOne(versions: Versions, status: VersionStatus) {
    forall v, w :: v in versions && w in versions && versions[v].status == status == versions[w].status ==>
      versions[v].plan == versions[w].plan ==> v == w
  }

  predicate ApprovalFits(row: VersionRow) {
    && (row.status == Approved ==> row.approval.Some?)
    && (row.status == Candidate || row.status == Rejected ==> row.approval.None?)
  }

  /** The n versions of a plan are numbered within 1..n, each differently. */
  ghost predicate NumbersOk(versions: Versions) {
    && (forall v :: v in versions ==> 1 <= versions[v].number <= |VersionsOf(versions, versions[v].plan)|)
    && (forall v, w :: v in versions && w in versions && v != w && versions[v].plan == versions[w].plan ==>
          versions[v].number != versions[w].number)
  }

  ghost predicate LineageOk(plans: Plans, versions: Versions) {
    && (forall v :: v in versions ==> versions[v].plan in plans)
    && (forall v {:trigger BasedInPlan(versions, v)} :: v in versions ==> BasedInPlan(versions, v))
  }

  /** A version is based on another version of its own plan, if on any. */
  predicate BasedInPlan(versions: Versions, v: Id)
    requires v in versions
  {
    var base := versions[v].basedOn;
    base.Some? ==> base.value in versions && versions[base.value].plan == versions[v].plan
  }

  /** A plan has a strategy exactly when some version of it was approved, and the strategy
      is the text of the approved version it names. */
  ghost predicate StrategiesOk(plans: Plans, versions: Versions, strategies: Strategies) {
    && (forall v {:trigger HasStrategy(plans, versions, v)} :: v in versions ==> HasStrategy(plans, versions, v))
    && (forall p {:trigger FollowsApproved(plans, versions, strategies, p)} :: p in plans ==>
          FollowsApproved(plans, versions, strategies, p))
    && (forall x {:trigger BelongsToPlan(plans, versions, strategies, x)} :: x in strategies ==>
          BelongsToPlan(plans, versions, strategies, x))
  }

  predicate HasStrategy(plans: Plans, versions: Versions, v: Id)
    requires v in versions
  {
    versions[v].approval.Some? ==> versions[v].plan in plans && plans[versions[v].plan].Some?
  }

  predicate FollowsApproved(plans: Plans, versions: Versions, strategies: Strategies, p: Id)
    requires p in plans
  {
    plans[p].Some? ==> plans[p].value in strategies && TextOfApproved(versions, strategies[plans[p].value], p)
  }

  predicate TextOfApproved(versions: Versions, row: StrategyRow, plan: Id) {
    && IsOf(versions, row.acceptedFrom, plan, Approved)
    && row.approach == versions[row.acceptedFrom].approach && row.rationale == versions[row.acceptedFrom].rationale
  }

  predicate BelongsToPlan(plans: Plans, versions: Versions, strategies: Strategies, x: Id)
    requires x in strategies
  {
    var from := strategies[x].acceptedFrom;
    from in versions && versions[from].plan in plans && plans[versions[from].plan] == Some(x)
  }

  ghost predicate ItemsOk(versions: Versions, items: Items, deps: map<Id, set<Edge>>) {
    && (forall i :: i in items ==> items[i].version in versions)
    && (forall v :: v in deps ==> v in versions && GraphOk(items, v, deps[v]))
    && (forall v :: v in versions ==> v in deps)
  }

  ghost predicate GraphOk(items: Items, version: Id, edges: set<Edge>) {
    && Acyclic(edges)
    && forall e :: e in edges ==>
         e.0 in items && e.1 in items && items[e.0].version == version && items[e.1].version == version
  }

  /** Progress exists for exactly the items of versions that were approved. */
  ghost predicate ProgressOk(versions: Versions, items: Items, progress: Progress) {
    forall i :: i in progress <==> i in items && items[i].version in versions && versions[items[i].version].approval.Some?
  }

  ghost predicate PresentationsOk(versions: Versions, presentations: Presentations, messages: Messages) {
    forall k :: k in presentations ==> k.0 in versions && k.1 in messages && messages[k.1].author == Assistant
  }

  /** Every approval comes from a user message of a conversation that had seen the version. */
  ghost predicate ApprovalsOk(versions: Versions, sources: Sources, messages: Messages, presentations: Presentations) {
    forall v :: v in versions && versions[v].approval.Some? ==>
      Confirmed(sources, messages, presentations, v, versions[v].approval.value.source)
  }

  ghost predicate Confirmed(sources: Sources, messages: Messages, presentations: Presentations, v: Id, source: Id) {
    var message := UserMessage(sources, messages, Some(source));
    message.Some? && Presented(presentations, messages, v, message.value)
  }

  ghost predicate VersionsOk(plans: Plans, versions: Versions, strategies: Strategies) {
    && LifecycleOk(versions) && NumbersOk(versions) && LineageOk(plans, versions)
    && StrategiesOk(plans, versions, strategies)
  }

  ghost predicate ContentOk(versions: Versions, items: Items, deps: map<Id, set<Edge>>, progress: Progress) {
    ItemsOk(versions, items, deps) && ProgressOk(versions, items, progress)
  }

  ghost predicate EvidenceOk(versions: Versions, sources: Sources, messages: Messages, presentations: Presentations) {
    PresentationsOk(versions, presentations, messages) && ApprovalsOk(versions, sources, messages, presentations)
  }

  ghost predicate PlanningOk(s: Planning) {
    && VersionsOk(s.plans, s.versions, s.strategies)
    && ContentOk(s.versions, s.items, s.deps, s.progress)
    && EvidenceOk(s.versions, s.sources, s.messages, s.presentations)
  }

  // ----- the version table under its writes

  /** Writes that leave every version's plan and number alone. */
  lemma NumbersFrame(versions: Versions, after: Versions)
    requires NumbersOk(versions) && after.Keys == versions.Keys
    requires forall v :: v in versions ==> after[v].plan == versions[v].plan && after[v].number == versions[v].number
    ensures NumbersOk(after)
    ensures forall p :: VersionsOf(after, p) == VersionsOf(versions, p)
  {
    forall p ensures VersionsOf(after, p) == VersionsOf(versions, p) {
      forall v ensures v in VersionsOf(after, p) <==> v in VersionsOf(versions, p) {
        assert v in after <==> v in versions;
      }
    }
    forall v | v in after ensures 1 <= after[v].number <= |VersionsOf(after, after[v].plan)| {
      assert v in versions;
    }
  }

  lemma RetireKeepsLifecycle(versions: Versions, plan: Id, status: VersionStatus)
    requires LifecycleOk(versions) && status != Rejected
    ensures LifecycleOk(Retire(versions, plan, status))
  {
    var after := Retire(versions, plan, status);
    RetireKeepsOne(versions, plan, status, Candidate);
    RetireKeepsOne(versions, plan, status, Approved);
  }

  /** What retiring changes: the status of the plan's current version, and nothing else. */
  lemma RetireFacts(versions: Versions, plan: Id, status: VersionStatus)
    requires status in {Candidate, Approved}
    ensures var after := Retire(versions, plan, status);
            && after.Keys == versions.Keys
            && (forall v :: v in versions ==> after[v].plan == versions[v].plan && after[v].number == versions[v].number)
            && (forall v :: v in after && after[v].plan == plan ==> after[v].status != status)
  {
  }

  lemma RetireKeeps(versions: Versions, plan: Id, status: VersionStatus)
    requires LifecycleOk(versions) && NumbersOk(versions) && status in {Candidate, Approved}
    ensures var after := Retire(versions, plan, status);
            && LifecycleOk(after) && NumbersOk(after) && VersionsOf(after, plan) == VersionsOf(versions, plan)
            && forall v :: v in after && after[v].plan == plan ==> after[v].status != status
  {
    RetireFacts(versions, plan, status);
    RetireKeepsLifecycle(versions, plan, status);
    NumbersFrame(versions, Retire(versions, plan, status));
  }

  lemma RetireKeepsOne(versions: Versions, plan: Id, status: VersionStatus, kept: VersionStatus)
    requires AtMostOne(versions, kept) && kept != Superseded
    ensures AtMostOne(Retire(versions, plan, status), kept)
  {
  }

  /** The next number is one more than the count. */
  lemma NextNumber(versions: Versions, plan: Id)
    requires NumbersOk(versions)
    ensures LargestNumber(versions, VersionsOf(versions, plan)) == |VersionsOf(versions, plan)|
  {
    var own := VersionsOf(versions, plan);
    var n := LargestNumber(versions, own);
    NumbersFitBelow(versions, own, n);
  }

  /** Differently numbered versions are at most as many as their largest number. */
  lemma {:induction false} NumbersFitBelow(versions: Versions, among: set<Id>, n: nat)
    requires among <= versions.Keys
    requires forall v :: v in among ==> 1 <= versions[v].number <= n
    requires forall v, w :: v in among && w in among && v != w ==> versions[v].number != versions[w].number
    ensures |among| <= n
  {
    if n > 0 && exists v :: v in among && versions[v].number == n {
      var v :| v in among && versions[v].number == n;
      NumbersFitBelow(versions, among - {v}, n - 1);
    } else if n > 0 {
      NumbersFitBelow(versions, among, n - 1);
    } else {
      assert forall v :: v in among ==> versions[v].number <= 0;
    }
  }

  lemma InsertKeepsNumbers(versions: Versions, v: Id, row: VersionRow)
    requires NumbersOk(versions) && v !in versions
    requires row.number == |VersionsOf(versions, row.plan)| + 1
    ensures NumbersOk(versions[v := row])
  {
    var after := versions[v := row];
    forall w | w in after ensures 1 <= after[w].number <= |VersionsOf(after, after[w].plan)| {
      VersionsOfMore(versions, v, row, after[w].plan);
    }
    forall w | w in versions && versions[w].plan == row.plan ensures versions[w].number != row.number {
      assert versions[w].number <= |VersionsOf(versions, versions[w].plan)|;
    }
  }

  lemma VersionsOfMore(versions: Versions, v: Id, row: VersionRow, p: Id)
    requires v !in versions
    ensures VersionsOf(versions[v := row], p) == VersionsOf(versions, p) + (if p == row.plan then {v} else {})
  {
  }

  lemma CandidateKeepsVersions(versions: Versions, v: Id, row: VersionRow)
    requires LifecycleOk(versions) && NumbersOk(versions) && v !in versions
    requires row.status == Candidate && row.approval.None?
    requires row.number == LargestNumber(versions, VersionsOf(versions, row.plan)) + 1
    ensures var after := Retire(versions, row.plan, Candidate)[v := row]; LifecycleOk(after) && NumbersOk(after)
  {
    RetireKeeps(versions, row.plan, Candidate);
    NextNumber(versions, row.plan);
    InsertKeepsNumbers(Retire(versions, row.plan, Candidate), v, row);
    InsertKeepsLifecycle(Retire(versions, row.plan, Candidate), v, row);
  }

  /** A version may take a status when no other version of its plan has it. */
  lemma InsertKeepsLifecycle(versions: Versions, v: Id, row: VersionRow)
    requires LifecycleOk(versions) && ApprovalFits(row)
    requires forall w :: w in versions && w != v && versions[w].plan == row.plan && versions[w].status == row.status ==>
               row.status != Candidate && row.status != Approved
    ensures LifecycleOk(versions[v := row])
  {
  }

  lemma ApprovedKeepsLifecycle(versions: Versions, v: Id, row: VersionRow)
    requires LifecycleOk(versions) && NumbersOk(versions) && v in versions && ApprovalFits(row)
    requires row.status == Approved && row.plan == versions[v].plan
    ensures LifecycleOk(Retire(versions, row.plan, Approved)[v := row])
  {
    RetireFacts(versions, row.plan, Approved);
    RetireKeepsLifecycle(versions, row.plan, Approved);
    InsertKeepsLifecycle(Retire(versions, row.plan, Approved), v, row);
  }

  lemma ApprovedKeepsVersions(versions: Versions, v: Id, approval: Option<Approval>)
    requires LifecycleOk(versions) && NumbersOk(versions) && v in versions && approval.Some?
    ensures LifecycleOk(MakeApproved(versions, v, approval)) && NumbersOk(MakeApproved(versions, v, approval))
  {
    ApprovedKeepsLifecycle(versions, v, versions[v].(status := Approved, approval := approval));
    RetireFacts(versions, versions[v].plan, Approved);
    NumbersFrame(versions, MakeApproved(versions, v, approval));
  }
}
