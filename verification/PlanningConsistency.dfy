/** The verifier's planning checks, exact against a declarative reading, and the proof that
    every state the planning services can reach passes them. */
module PlanningConsistency {
  import opened Basics
  import opened Graphs
  import opened Consistency
  import opened PlanningGround
  import opened PlanningModel
  import opened PlanningLifecycle
  import PlanningGrounded
  import PlanningSteps

  // ----- what the checks mean

  predicate StrategyExists(s: Planning, p: Id)
    requires p in s.plans
  {
    s.plans[p].Some? ==> s.plans[p].value in s.strategies
  }

  ghost predicate StrategiesPass(s: Planning) {
    && (forall p {:trigger StrategyExists(s, p)} :: p in s.plans ==> StrategyExists(s, p))
    && (forall x {:trigger BelongsToPlan(s.plans, s.versions, s.strategies, x)} :: x in s.strategies ==>
          BelongsToPlan(s.plans, s.versions, s.strategies, x))
  }

  ghost predicate VersionsPass(s: Planning) {
    && AtMostOne(s.versions, Candidate) && AtMostOne(s.versions, Approved)
    && (forall v :: v in s.versions ==> s.versions[v].plan in s.plans)
    && (forall v {:trigger BasedInPlan(s.versions, v)} :: v in s.versions ==> BasedInPlan(s.versions, v))
  }

  predicate IsItemOf(s: Planning, i: Id, version: Id) {
    i in s.items && s.items[i].version == version
  }

  /** The version's dependencies join its own items and close no cycle. */
  ghost predicate ItemGraphPasses(s: Planning, version: Id)
    requires version in s.deps
  {
    && (forall e :: e in s.deps[version] ==> IsItemOf(s, e.0, version) && IsItemOf(s, e.1, version))
    && Acyclic(s.deps[version])
  }

  predicate WasApproved(s: Planning, i: Id) {
    i in s.items && s.items[i].version in s.versions && s.versions[s.items[i].version].approval.Some?
  }

  ghost predicate ContentPasses(s: Planning) {
    && (forall i :: i in s.items ==> s.items[i].version in s.versions)
    && (forall v {:trigger ItemGraphPasses(s, v)} :: v in s.deps ==> ItemGraphPasses(s, v))
    && (forall i {:trigger WasApproved(s, i)} :: i in s.progress ==> WasApproved(s, i))
  }

  predicate FromAssistant(s: Planning, k: (Id, Id)) {
    k.1 in s.messages && s.messages[k.1].author == Assistant
  }

  predicate ApprovedByUser(s: Planning, v: Id)
    requires v in s.versions
  {
    s.versions[v].status == Approved ==>
      s.versions[v].approval.Some?
      && UserMessage(s.sources, s.messages, Some(s.versions[v].approval.value.source)).Some?
  }

  predicate ApprovedAfterPresentation(s: Planning, v: Id)
    requires v in s.versions
  {
    s.versions[v].status == Approved ==> exists k :: k in s.presentations && k.0 == v
  }

  ghost predicate PresentationsPass(s: Planning) {
    && (forall k :: k in s.presentations ==> k.0 in s.versions)
    && (forall k {:trigger FromAssistant(s, k)} :: k in s.presentations ==> FromAssistant(s, k))
  }

  ghost predicate ApprovalsPass(s: Planning) {
    && (forall v {:trigger ApprovedByUser(s, v)} :: v in s.versions ==> ApprovedByUser(s, v))
    && (forall v {:trigger ApprovedAfterPresentation(s, v)} :: v in s.versions ==> ApprovedAfterPresentation(s, v))
  }

  /** Every basis belongs to a version, resolves, and has the role its entity's kind allows;
      every link joins a plan to a goal. */
  ghost predicate GroundPasses(plans: set<Id>, versions: set<Id>, g: Ground) {
    && (forall r {:trigger BasisStands(g, versions, r)} :: r in g.basis ==> BasisStands(g, versions, r))
    && (forall k {:trigger LinkStands(g, plans, k)} :: k in g.links ==> LinkStands(g, plans, k))
  }

  ghost predicate PlanningPasses(s: Planning, g: Ground) {
    && VersionsPass(s) && StrategiesPass(s) && ContentPasses(s) && PresentationsPass(s) && ApprovalsPass(s)
    && GroundPasses(s.plans.Keys, s.versions.Keys, g)
  }

  // ----- the checks

  function Current(versions: Versions, plan: Id, status: VersionStatus): set<Id> {
    set v | v in versions && versions[v].plan == plan && versions[v].status == status
  }

  lemma MoreThanOne(versions: Versions, status: VersionStatus)
    ensures AtMostOne(versions, status) <==> forall v :: v in versions ==> |Current(versions, versions[v].plan, status)| <= 1
  {
    if AtMostOne(versions, status) {
      forall v | v in versions ensures |Current(versions, versions[v].plan, status)| <= 1 {
        var current := Current(versions, versions[v].plan, status);
        if current != {} {
          var w :| w in current;
          assert current == {w};
        }
      }
    } else {
      var v, w :| v in versions && w in versions && versions[v].status == status == versions[w].status
                  && versions[v].plan == versions[w].plan && v != w;
      DifferenceSize(Current(versions, versions[v].plan, status), {v, w});
    }
  }

  /** Two rows of the plan have the status. */
  ghost predicate TwoCurrent(versions: Versions, p: Id, status: VersionStatus) {
    exists v, w :: && v in versions && w in versions && v != w && versions[v].plan == p == versions[w].plan
                   && versions[v].status == status == versions[w].status
  }

  lemma CrowdedMeans(versions: Versions, p: Id, status: VersionStatus)
    ensures |Current(versions, p, status)| > 1 <==>
            exists v, w :: && v in versions && w in versions && v != w && versions[v].plan == p == versions[w].plan
                           && versions[v].status == status == versions[w].status
    ensures |Current(versions, p, status)| > 1 <==> TwoCurrent(versions, p, status)
  {
    var current := Current(versions, p, status);
    if |current| > 1 {
      var v :| v in current;
      DifferenceSize(current, {v});
      var w :| w in current - {v};
      assert versions[v].plan == p == versions[w].plan;
    }
    if v, w :| v in versions && w in versions && v != w && versions[v].plan == p == versions[w].plan
               && versions[v].status == status == versions[w].status {
      DifferenceSize(current, {v, w});
    }
  }

  function Crowded(versions: Versions, status: VersionStatus): set<Id> {
    set v | v in versions && |Current(versions, versions[v].plan, status)| > 1 :: versions[v].plan
  }

  lemma CrowdedIff(versions: Versions, status: VersionStatus, p: Id)
    ensures p in Crowded(versions, status) <==> TwoCurrent(versions, p, status)
  {
    CrowdedMeans(versions, p, status);
    if v, w :| && v in versions && w in versions && v != w && versions[v].plan == p == versions[w].plan
               && versions[v].status == status == versions[w].status {
      assert versions[v].plan in Crowded(versions, status);
    }
  }

  lemma CrowdedEmptyIff(versions: Versions, status: VersionStatus)
    ensures Crowded(versions, status) == {} <==> AtMostOne(versions, status)
  {
    MoreThanOne(versions, status);
    assert Crowded(versions, status) == {} <==> forall v :: v in versions ==> versions[v].plan !in Crowded(versions, status);
  }

  method VerifyCardinality(verifier: ConsistencyVerifier, versions: Versions, status: VersionStatus)
    modifies verifier
    ensures Appends(old(verifier.issues), verifier.issues)
    ensures verifier.issues == old(verifier.issues) <==> AtMostOne(versions, status)
    ensures forall p: Id :: p in Named(old(verifier.issues), verifier.issues, PlanCurrentVersionCardinality) <==>
              TwoCurrent(versions, p, status)
    ensures forall c :: c != PlanCurrentVersionCardinality ==> Named(old(verifier.issues), verifier.issues, c) == {}
  {
    CrowdedEmptyIff(versions, status);
    forall p: Id { CrowdedIff(versions, status, p); }
    verifier.ReportEach(PlanCurrentVersionCardinality, Crowded(versions, status));
  }

  method VerifyStrategies(verifier: ConsistencyVerifier, s: Planning)
    modifies verifier
    ensures Appends(old(verifier.issues), verifier.issues)
    ensures verifier.issues == old(verifier.issues) <==> StrategiesPass(s)
    ensures forall p: Id :: p in Named(old(verifier.issues), verifier.issues, PlanStrategyMissing) <==>
              p in s.plans && s.plans[p].Some? && s.plans[p].value !in s.strategies
    ensures forall x: Id :: x in Named(old(verifier.issues), verifier.issues, StrategyAcceptedVersionMissing) <==>
              x in s.strategies && s.strategies[x].acceptedFrom !in s.versions
    ensures forall x: Id :: x in Named(old(verifier.issues), verifier.issues, StrategyPlanMismatch) <==>
              && x in s.strategies && s.strategies[x].acceptedFrom in s.versions
              && var plan := s.versions[s.strategies[x].acceptedFrom].plan;
                 !(plan in s.plans && s.plans[plan] == Some(x))
  {
    var missing := set p | p in s.plans && !StrategyExists(s, p);
    verifier.ReportEach(PlanStrategyMissing, missing);
    ghost var first := verifier.issues;
    var unaccepted := set x | x in s.strategies && s.strategies[x].acceptedFrom !in s.versions;
    verifier.ReportEach(StrategyAcceptedVersionMissing, unaccepted);
    ghost var second := verifier.issues;
    var mismatched := set x | x in s.strategies && x !in unaccepted && !BelongsToPlan(s.plans, s.versions, s.strategies, x);
    verifier.ReportEach(StrategyPlanMismatch, mismatched);
    StrategyFaults(s, missing, unaccepted, mismatched);
    StrategiesReported(s, old(verifier.issues), first, second, verifier.issues, missing, unaccepted, mismatched);
  }

  lemma StrategyFaults(s: Planning, missing: set<Id>, unaccepted: set<Id>, mismatched: set<Id>)
    requires missing == set p | p in s.plans && !StrategyExists(s, p)
    requires unaccepted == set x | x in s.strategies && s.strategies[x].acceptedFrom !in s.versions
    requires mismatched == set x | x in s.strategies && x !in unaccepted && !BelongsToPlan(s.plans, s.versions, s.strategies, x)
    ensures missing == unaccepted == mismatched == {} <==> StrategiesPass(s)
  {
    assert missing == {} <==> forall p {:trigger StrategyExists(s, p)} :: p in s.plans ==> p !in missing;
    forall x | x in s.strategies
      ensures x in unaccepted || x in mismatched <==> !BelongsToPlan(s.plans, s.versions, s.strategies, x) {}
  }

  lemma StrategiesReported(s: Planning, i0: seq<Issue>, i1: seq<Issue>, i2: seq<Issue>, i3: seq<Issue>,
                           missing: set<Id>, unaccepted: set<Id>, mismatched: set<Id>)
    requires missing == set p | p in s.plans && !StrategyExists(s, p)
    requires unaccepted == set x | x in s.strategies && s.strategies[x].acceptedFrom !in s.versions
    requires mismatched == set x | x in s.strategies && x !in unaccepted && !BelongsToPlan(s.plans, s.versions, s.strategies, x)
    requires Appends(i0, i1) && Appends(i1, i2) && Appends(i2, i3)
    requires forall c :: Named(i0, i1, c) == if c == PlanStrategyMissing then missing else {}
    requires forall c :: Named(i1, i2, c) == if c == StrategyAcceptedVersionMissing then unaccepted else {}
    requires forall c :: Named(i2, i3, c) == if c == StrategyPlanMismatch then mismatched else {}
    ensures Appends(i0, i3) && (i3 == i0 <==> i1 == i0 && i2 == i1 && i3 == i2)
    ensures forall p: Id :: p in Named(i0, i3, PlanStrategyMissing) <==>
              p in s.plans && s.plans[p].Some? && s.plans[p].value !in s.strategies
    ensures forall x: Id :: x in Named(i0, i3, StrategyAcceptedVersionMissing) <==>
              x in s.strategies && s.strategies[x].acceptedFrom !in s.versions
    ensures forall x: Id :: x in Named(i0, i3, StrategyPlanMismatch) <==>
              && x in s.strategies && s.strategies[x].acceptedFrom in s.versions
              && var plan := s.versions[s.strategies[x].acceptedFrom].plan;
                 !(plan in s.plans && s.plans[plan] == Some(x))
  {
    AppendsOver(i0, i1, i2);
    AppendsOver(i0, i2, i3);
    ThreeReports(i0, i1, i2, i3, PlanStrategyMissing, StrategyAcceptedVersionMissing, StrategyPlanMismatch,
                 missing, unaccepted, mismatched);
  }

  method VerifyVersions(verifier: ConsistencyVerifier, s: Planning)
    modifies verifier
    ensures Appends(old(verifier.issues), verifier.issues)
    ensures verifier.issues == old(verifier.issues) <==> VersionsPass(s)
    ensures forall p: Id :: p in Named(old(verifier.issues), verifier.issues, PlanCurrentVersionCardinality) <==>
              TwoCurrent(s.versions, p, Candidate) || TwoCurrent(s.versions, p, Approved)
    ensures Named(old(verifier.issues), verifier.issues, PlanVersionPlanMissing) ==
            set v | v in s.versions && s.versions[v].plan !in s.plans
    ensures Named(old(verifier.issues), verifier.issues, PlanVersionLineageInvalid) ==
            set v | && v in s.versions && s.versions[v].basedOn.Some?
                    && var base := s.versions[v].basedOn.value;
                       !(base in s.versions && s.versions[base].plan == s.versions[v].plan)
  {
    VerifyCardinality(verifier, s.versions, Candidate);
    ghost var first := verifier.issues;
    VerifyCardinality(verifier, s.versions, Approved);
    ghost var second := verifier.issues;
    var orphaned := set v | v in s.versions && s.versions[v].plan !in s.plans;
    verifier.ReportEach(PlanVersionPlanMissing, orphaned);
    ghost var third := verifier.issues;
    var misbased := set v | v in s.versions && !BasedInPlan(s.versions, v);
    verifier.ReportEach(PlanVersionLineageInvalid, misbased);
    VersionFaults(s, orphaned, misbased);
    VersionsReported(old(verifier.issues), first, second, third, verifier.issues, orphaned, misbased);
  }

  lemma VersionFaults(s: Planning, orphaned: set<Id>, misbased: set<Id>)
    requires orphaned == set v | v in s.versions && s.versions[v].plan !in s.plans
    requires misbased == set v | v in s.versions && !BasedInPlan(s.versions, v)
    ensures misbased == set v | && v in s.versions && s.versions[v].basedOn.Some?
                                && var base := s.versions[v].basedOn.value;
                                   !(base in s.versions && s.versions[base].plan == s.versions[v].plan)
    ensures VersionsPass(s) <==>
            AtMostOne(s.versions, Candidate) && AtMostOne(s.versions, Approved) && orphaned == {} && misbased == {}
  {
    assert orphaned == {} <==> forall v :: v in s.versions ==> v !in orphaned;
    assert misbased == {} <==> forall v {:trigger BasedInPlan(s.versions, v)} :: v in s.versions ==> v !in misbased;
  }

  lemma VersionsReported(i0: seq<Issue>, i1: seq<Issue>, i2: seq<Issue>, i3: seq<Issue>, i4: seq<Issue>,
                         orphaned: set<Id>, misbased: set<Id>)
    requires Appends(i0, i1) && Appends(i1, i2) && Appends(i2, i3) && Appends(i3, i4)
    requires forall c :: c != PlanCurrentVersionCardinality ==> Named(i0, i1, c) == {}
    requires forall c :: c != PlanCurrentVersionCardinality ==> Named(i1, i2, c) == {}
    requires forall c :: Named(i2, i3, c) == if c == PlanVersionPlanMissing then orphaned else {}
    requires forall c :: Named(i3, i4, c) == if c == PlanVersionLineageInvalid then misbased else {}
    ensures Appends(i0, i4) && (i4 == i0 <==> i1 == i0 && i2 == i1 && i3 == i2 && i4 == i3)
    ensures Named(i0, i4, PlanCurrentVersionCardinality) ==
            Named(i0, i1, PlanCurrentVersionCardinality) + Named(i1, i2, PlanCurrentVersionCardinality)
    ensures Named(i0, i4, PlanVersionPlanMissing) == orphaned && Named(i0, i4, PlanVersionLineageInvalid) == misbased
  {
    TwoReports(i2, i3, i4, PlanVersionPlanMissing, PlanVersionLineageInvalid, orphaned, misbased);
    AppendsOver(i2, i3, i4);
    AppendsOver(i0, i1, i2);
    AppendsOver(i0, i2, i4);
    NamedOver(i0, i2, i4, PlanCurrentVersionCardinality);
    NamedOver(i0, i1, i2, PlanCurrentVersionCardinality);
    NamedOver(i0, i2, i4, PlanVersionPlanMissing);
    NamedOver(i0, i1, i2, PlanVersionPlanMissing);
    NamedOver(i0, i2, i4, PlanVersionLineageInvalid);
    NamedOver(i0, i1, i2, PlanVersionLineageInvalid);
  }

  method VerifyContent(verifier: ConsistencyVerifier, s: Planning)
    modifies verifier
    ensures Appends(old(verifier.issues), verifier.issues)
    ensures verifier.issues == old(verifier.issues) <==> ContentPasses(s)
    ensures Named(old(verifier.issues), verifier.issues, PlanItemVersionMissing) ==
            set i | i in s.items && s.items[i].version !in s.versions
    ensures Named(old(verifier.issues), verifier.issues, PlanProgressWithoutApproval) ==
            set i | i in s.progress && !(&& i in s.items && s.items[i].version in s.versions
                                         && s.versions[s.items[i].version].approval.Some?)
  {
    var orphaned := set i | i in s.items && s.items[i].version !in s.versions;
    verifier.ReportEach(PlanItemVersionMissing, orphaned);
    ghost var first := verifier.issues;
    var early := set i | i in s.progress && !WasApproved(s, i);
    verifier.ReportEach(PlanProgressWithoutApproval, early);
    ghost var second := verifier.issues;
    VerifyItemGraphs(verifier, s);
    ContentFaults(s, orphaned, early);
    ContentReported(old(verifier.issues), first, second, verifier.issues, orphaned, early);
  }

  lemma ContentFaults(s: Planning, orphaned: set<Id>, early: set<Id>)
    requires orphaned == set i | i in s.items && s.items[i].version !in s.versions
    requires early == set i | i in s.progress && !WasApproved(s, i)
    ensures early == set i | i in s.progress && !(&& i in s.items && s.items[i].version in s.versions
                                                  && s.versions[s.items[i].version].approval.Some?)
    ensures ContentPasses(s) <==> orphaned == early == {}
                                  && forall v {:trigger ItemGraphPasses(s, v)} :: v in s.deps ==> ItemGraphPasses(s, v)
  {
    assert orphaned == {} <==> forall i :: i in s.items ==> i !in orphaned;
    assert early == {} <==> forall i {:trigger WasApproved(s, i)} :: i in s.progress ==> i !in early;
  }

  lemma ContentReported(i0: seq<Issue>, i1: seq<Issue>, i2: seq<Issue>, i3: seq<Issue>, orphaned: set<Id>, early: set<Id>)
    requires Appends(i0, i1) && Appends(i1, i2) && Appends(i2, i3)
    requires forall c :: Named(i0, i1, c) == if c == PlanItemVersionMissing then orphaned else {}
    requires forall c :: Named(i1, i2, c) == if c == PlanProgressWithoutApproval then early else {}
    requires forall c :: c != PlanItemDependencyCycle ==> Named(i2, i3, c) == {}
    ensures Appends(i0, i3) && (i3 == i0 <==> i1 == i0 && i2 == i1 && i3 == i2)
    ensures Named(i0, i3, PlanItemVersionMissing) == orphaned && Named(i0, i3, PlanProgressWithoutApproval) == early
  {
    TwoReports(i0, i1, i2, PlanItemVersionMissing, PlanProgressWithoutApproval, orphaned, early);
    AppendsOver(i0, i1, i2);
    AppendsOver(i0, i2, i3);
    NamedOver(i0, i2, i3, PlanItemVersionMissing);
    NamedOver(i0, i2, i3, PlanProgressWithoutApproval);
  }

  /** The dependencies of the versions that do not join the version's own items. */
  function Strangers(s: Planning, among: set<Id>): set<Edge> {
    set v, e | v in among && v in s.deps && e in s.deps[v] && !(IsItemOf(s, e.0, v) && IsItemOf(s, e.1, v)) :: e
  }

  /** The versions whose own items wait for each other in a cycle. */
  ghost function CyclicVersions(s: Planning, among: set<Id>): set<Id> {
    set v | v in among && v in s.deps && !Acyclic(KnownEdges(ItemsOf(s.items, v), s.deps[v]))
  }

  ghost predicate GraphsReported(s: Planning, seen: set<Id>, before: seq<Issue>, after: seq<Issue>) {
    && Appends(before, after)
    && NamedLinks(before, after, PlanItemDependencyVersionMismatch) == Strangers(s, seen)
    && Named(before, after, PlanItemDependencyCycle) == CyclicVersions(s, seen)
    && forall c :: c != PlanItemDependencyCycle ==> Named(before, after, c) == {}
  }

  lemma ReportedGraphs(s: Planning, seen: set<Id>, more: set<Id>, i0: seq<Issue>, i1: seq<Issue>, i2: seq<Issue>)
    requires GraphsReported(s, seen, i0, i1) && GraphsReported(s, more, i1, i2)
    ensures GraphsReported(s, seen + more, i0, i2)
  {
    AppendsOver(i0, i1, i2);
    NamedOver(i0, i1, i2, PlanItemDependencyVersionMismatch);
    assert Strangers(s, seen + more) == Strangers(s, seen) + Strangers(s, more);
    assert CyclicVersions(s, seen + more) == CyclicVersions(s, seen) + CyclicVersions(s, more);
    forall c { NamedOver(i0, i1, i2, c); }
  }

  lemma ReportedGraph(s: Planning, v: Id, i0: seq<Issue>, i1: seq<Issue>, i2: seq<Issue>, strangers: set<Edge>)
    requires v in s.deps && Appends(i0, i1)
    requires strangers == set e | e in s.deps[v] && !(IsItemOf(s, e.0, v) && IsItemOf(s, e.1, v))
    requires forall c :: Named(i0, i1, c) == {}
    requires forall c :: NamedLinks(i0, i1, c) == if c == PlanItemDependencyVersionMismatch then strangers else {}
    requires i2 == i1 + if Acyclic(KnownEdges(ItemsOf(s.items, v), s.deps[v])) then [] else [Issue(PlanItemDependencyCycle, v)]
    ensures GraphsReported(s, {v}, i0, i2)
  {
    StrangersOfOne(s, v);
    var cyclic := CyclicVersions(s, {v});
    assert cyclic == if Acyclic(KnownEdges(ItemsOf(s.items, v), s.deps[v])) then {} else {v};
    if cyclic == {} {
      assert i2 == i1;
    } else {
      OneMore(i0, i1, Issue(PlanItemDependencyCycle, v));
    }
  }

  lemma StrangersOfOne(s: Planning, v: Id)
    requires v in s.deps
    ensures Strangers(s, {v}) == set e | e in s.deps[v] && !(IsItemOf(s, e.0, v) && IsItemOf(s, e.1, v))
  {
  }

  lemma OneMore(i0: seq<Issue>, i1: seq<Issue>, last: Issue)
    requires Appends(i0, i1) && last.Issue?
    ensures Appends(i0, i1 + [last])
    ensures forall c :: NamedLinks(i0, i1 + [last], c) == NamedLinks(i0, i1, c)
    ensures forall c :: Named(i0, i1 + [last], c) == Named(i0, i1, c) + if c == last.code then {last.subject} else {}
  {
    var i2 := i1 + [last];
    assert i2[..|i0|] == i1[..|i0|];
    forall c
      ensures NamedLinks(i0, i2, c) == NamedLinks(i0, i1, c)
      ensures Named(i0, i2, c) == Named(i0, i1, c) + if c == last.code then {last.subject} else {}
    {
      NamedOne(i0, i1, last, c);
    }
  }

  /** Checks every version's dependencies: first that they join its items, then Kahn's algorithm. */
  method VerifyItemGraphs(verifier: ConsistencyVerifier, s: Planning)
    modifies verifier
    ensures Appends(old(verifier.issues), verifier.issues)
    ensures verifier.issues == old(verifier.issues) <==>
            forall v {:trigger ItemGraphPasses(s, v)} :: v in s.deps ==> ItemGraphPasses(s, v)
    ensures NamedLinks(old(verifier.issues), verifier.issues, PlanItemDependencyVersionMismatch) ==
            set v, e | v in s.deps && e in s.deps[v] && !(&& e.0 in s.items && s.items[e.0].version == v
                                                          && e.1 in s.items && s.items[e.1].version == v) :: e
    ensures Named(old(verifier.issues), verifier.issues, PlanItemDependencyCycle) ==
            set v | v in s.deps && !Acyclic(KnownEdges(ItemsOf(s.items, v), s.deps[v]))
    ensures forall c :: c != PlanItemDependencyCycle ==> Named(old(verifier.issues), verifier.issues, c) == {}
  {
    var left := s.deps.Keys;
    while left != {}
      invariant left <= s.deps.Keys && GraphsReported(s, s.deps.Keys - left, old(verifier.issues), verifier.issues)
      invariant verifier.issues == old(verifier.issues) <==>
                forall v {:trigger ItemGraphPasses(s, v)} :: v in s.deps.Keys - left ==> ItemGraphPasses(s, v)
      decreases left
    {
      var v :| v in left;
      ghost var between := verifier.issues;
      VerifyItemGraph(verifier, s, v);
      ReportedGraphs(s, s.deps.Keys - left, {v}, old(verifier.issues), between, verifier.issues);
      assert s.deps.Keys - (left - {v}) == (s.deps.Keys - left) + {v};
      left := left - {v};
    }
    assert s.deps.Keys - {} == s.deps.Keys;
  }

  method VerifyItemGraph(verifier: ConsistencyVerifier, s: Planning, v: Id)
    requires v in s.deps
    modifies verifier
    ensures GraphsReported(s, {v}, old(verifier.issues), verifier.issues)
    ensures verifier.issues == old(verifier.issues) <==> ItemGraphPasses(s, v)
  {
    var strangers := set e | e in s.deps[v] && !(IsItemOf(s, e.0, v) && IsItemOf(s, e.1, v));
    assert strangers == {} <==> forall e :: e in s.deps[v] ==> e !in strangers;
    verifier.ReportEachLink(PlanItemDependencyVersionMismatch, strangers);
    ghost var first := verifier.issues;
    var nodes := ItemsOf(s.items, v);
    if strangers == {} {
      assert KnownEdges(nodes, s.deps[v]) == s.deps[v];
    }
    verifier.VerifyItemCycle(v, nodes, s.deps[v]);
    ReportedGraph(s, v, old(verifier.issues), first, verifier.issues, strangers);
  }

  method VerifyPresentations(verifier: ConsistencyVerifier, s: Planning)
    modifies verifier
    ensures Appends(old(verifier.issues), verifier.issues)
    ensures verifier.issues == old(verifier.issues) <==> PresentationsPass(s)
    ensures NamedLinks(old(verifier.issues), verifier.issues, PlanPresentationVersionMissing) ==
            set k | k in s.presentations && k.0 !in s.versions
    ensures NamedLinks(old(verifier.issues), verifier.issues, PlanPresentationMessageInvalid) ==
            set k | k in s.presentations && !(k.1 in s.messages && s.messages[k.1].author == Assistant)
  {
    var dangling := set k | k in s.presentations && k.0 !in s.versions;
    verifier.ReportEachLink(PlanPresentationVersionMissing, dangling);
    ghost var first := verifier.issues;
    var foreign := set k | k in s.presentations && !FromAssistant(s, k);
    verifier.ReportEachLink(PlanPresentationMessageInvalid, foreign);
    PresentationFaults(s, dangling, foreign);
    AppendsOver(old(verifier.issues), first, verifier.issues);
    TwoLinkReports(old(verifier.issues), first, verifier.issues, PlanPresentationVersionMissing,
                   PlanPresentationMessageInvalid, dangling, foreign);
  }

  lemma PresentationFaults(s: Planning, dangling: set<(Id, Id)>, foreign: set<(Id, Id)>)
    requires dangling == set k | k in s.presentations && k.0 !in s.versions
    requires foreign == set k | k in s.presentations && !FromAssistant(s, k)
    ensures foreign == set k | k in s.presentations && !(k.1 in s.messages && s.messages[k.1].author == Assistant)
    ensures PresentationsPass(s) <==> dangling == foreign == {}
  {
    assert dangling == {} <==> forall k :: k in s.presentations ==> k !in dangling;
    assert foreign == {} <==> forall k {:trigger FromAssistant(s, k)} :: k in s.presentations ==> k !in foreign;
  }

  method VerifyApprovals(verifier: ConsistencyVerifier, s: Planning)
    modifies verifier
    ensures Appends(old(verifier.issues), verifier.issues)
    ensures verifier.issues == old(verifier.issues) <==> ApprovalsPass(s)
    ensures forall v: Id :: v in Named(old(verifier.issues), verifier.issues, PlanApprovalSourceInvalid) <==>
              && v in s.versions && s.versions[v].status == Approved
              && (s.versions[v].approval.None?
                  || UserMessage(s.sources, s.messages, Some(s.versions[v].approval.value.source)).None?)
    ensures forall v: Id :: v in Named(old(verifier.issues), verifier.issues, PlanApprovedWithoutPresentation) <==>
              v in s.versions && s.versions[v].status == Approved && forall m: Id :: (v, m) !in s.presentations
  {
    var unauthorized := set v | v in s.versions && !ApprovedByUser(s, v);
    verifier.ReportEach(PlanApprovalSourceInvalid, unauthorized);
    ghost var first := verifier.issues;
    var unseen := set v | v in s.versions && !ApprovedAfterPresentation(s, v);
    verifier.ReportEach(PlanApprovedWithoutPresentation, unseen);
    ApprovalFaults(s, unauthorized, unseen);
    AppendsOver(old(verifier.issues), first, verifier.issues);
    TwoReports(old(verifier.issues), first, verifier.issues, PlanApprovalSourceInvalid, PlanApprovedWithoutPresentation,
               unauthorized, unseen);
  }

  lemma ApprovalFaults(s: Planning, unauthorized: set<Id>, unseen: set<Id>)
    requires unauthorized == set v | v in s.versions && !ApprovedByUser(s, v)
    requires unseen == set v | v in s.versions && !ApprovedAfterPresentation(s, v)
    ensures forall v: Id :: v in unauthorized <==>
              && v in s.versions && s.versions[v].status == Approved
              && (s.versions[v].approval.None?
                  || UserMessage(s.sources, s.messages, Some(s.versions[v].approval.value.source)).None?)
    ensures forall v: Id :: v in unseen <==>
              v in s.versions && s.versions[v].status == Approved && forall m: Id :: (v, m) !in s.presentations
    ensures ApprovalsPass(s) <==> unauthorized == unseen == {}
  {
    assert unauthorized == {} <==> forall v {:trigger ApprovedByUser(s, v)} :: v in s.versions ==> v !in unauthorized;
    assert unseen == {} <==> forall v {:trigger ApprovedAfterPresentation(s, v)} :: v in s.versions ==> v !in unseen;
  }

  method VerifyBasis(verifier: ConsistencyVerifier, versions: set<Id>, g: Ground)
    modifies verifier
    ensures Appends(old(verifier.issues), verifier.issues)
    ensures verifier.issues == old(verifier.issues) <==>
            forall r {:trigger BasisStands(g, versions, r)} :: r in g.basis ==> BasisStands(g, versions, r)
    ensures Named(old(verifier.issues), verifier.issues, PlanBasisVersionMissing) ==
            set r | r in g.basis && r.0 !in versions :: r.1.event
    ensures Named(old(verifier.issues), verifier.issues, PlanBasisEventMismatch) ==
            set r | r in g.basis && !(&& r.1.entity in g.entities && r.1.event in g.events
                                      && g.events[r.1.event].entity == r.1.entity) :: r.1.event
    ensures Named(old(verifier.issues), verifier.issues, PlanBasisRoleMismatch) ==
            set r | && r in g.basis && r.1.entity in g.entities && r.1.event in g.events
                    && g.events[r.1.event].entity == r.1.entity
                    && g.entities[r.1.entity].kind != KindOf(r.1.role) :: r.1.event
  {
    var dangling := set r | r in g.basis && r.0 !in versions :: r.1.event;
    var unresolved := set r | r in g.basis && !Resolves(g, r.1) :: r.1.event;
    var misfit := set r | r in g.basis && Resolves(g, r.1) && !RoleFits(g, r.1) :: r.1.event;
    verifier.ReportEach(PlanBasisVersionMissing, dangling);
    ghost var first := verifier.issues;
    verifier.ReportEach(PlanBasisEventMismatch, unresolved);
    ghost var second := verifier.issues;
    verifier.ReportEach(PlanBasisRoleMismatch, misfit);
    AppendsOver(old(verifier.issues), first, second);
    AppendsOver(old(verifier.issues), second, verifier.issues);
    ThreeReports(old(verifier.issues), first, second, verifier.issues, PlanBasisVersionMissing, PlanBasisEventMismatch,
                 PlanBasisRoleMismatch, dangling, unresolved, misfit);
    BasisReported(versions, g, dangling, unresolved, misfit);
  }

  /** A basis stands exactly when none of the three checks names its event. */
  lemma BasisReported(versions: set<Id>, g: Ground, dangling: set<Id>, unresolved: set<Id>, misfit: set<Id>)
    requires dangling == set r | r in g.basis && r.0 !in versions :: r.1.event
    requires unresolved == set r | r in g.basis && !Resolves(g, r.1) :: r.1.event
    requires misfit == set r | r in g.basis && Resolves(g, r.1) && !RoleFits(g, r.1) :: r.1.event
    ensures unresolved == set r | r in g.basis && !(&& r.1.entity in g.entities && r.1.event in g.events
                                                    && g.events[r.1.event].entity == r.1.entity) :: r.1.event
    ensures misfit == set r | && r in g.basis && r.1.entity in g.entities && r.1.event in g.events
                              && g.events[r.1.event].entity == r.1.entity
                              && g.entities[r.1.entity].kind != KindOf(r.1.role) :: r.1.event
    ensures dangling == {} && unresolved == {} && misfit == {} <==>
            forall r {:trigger BasisStands(g, versions, r)} :: r in g.basis ==> BasisStands(g, versions, r)
  {
    if dangling == {} && unresolved == {} && misfit == {} {
      forall r | r in g.basis ensures BasisStands(g, versions, r) {
        assert r.1.event !in dangling && r.1.event !in unresolved && r.1.event !in misfit;
      }
    } else if forall r {:trigger BasisStands(g, versions, r)} :: r in g.basis ==> BasisStands(g, versions, r) {
      var e :| e in dangling + unresolved + misfit;
      var r :| r in g.basis && r.1.event == e && !BasisStands(g, versions, r);
      assert false;
    }
  }

  method VerifyLinks(verifier: ConsistencyVerifier, plans: set<Id>, g: Ground)
    modifies verifier
    ensures Appends(old(verifier.issues), verifier.issues)
    ensures verifier.issues == old(verifier.issues) <==>
            forall k {:trigger LinkStands(g, plans, k)} :: k in g.links ==> LinkStands(g, plans, k)
    ensures NamedLinks(old(verifier.issues), verifier.issues, PlanGoalLinkInvalid) ==
            set k | k in g.links && !(k.0 in plans && k.1 in g.entities && g.entities[k.1].kind == GoalEntity)
  {
    var broken := set k | k in g.links && !LinkStands(g, plans, k);
    assert broken == {} <==> forall k {:trigger LinkStands(g, plans, k)} :: k in g.links ==> k !in broken;
    verifier.ReportEachLink(PlanGoalLinkInvalid, broken);
  }

  /** The report stays empty exactly when the planning state passes every check. */
  method VerifyPlanning(s: Planning, g: Ground) returns (verifier: ConsistencyVerifier)
    ensures verifier.issues == [] <==> PlanningPasses(s, g)
  {
    verifier := new ConsistencyVerifier();
    VerifyVersions(verifier, s);
    VerifyStrategies(verifier, s);
    VerifyContent(verifier, s);
    VerifyPresentations(verifier, s);
    VerifyApprovals(verifier, s);
    VerifyBasis(verifier, s.versions.Keys, g);
    VerifyLinks(verifier, s.plans.Keys, g);
  }

  // ----- the services keep to them

  /** Whatever the planning services do, the verifier finds nothing. */
  lemma ReachablePlanningPasses(actions: seq<PlanningGrounded.Action>)
    ensures var s := PlanningGrounded.Run(actions); PlanningPasses(s.planning, s.ground)
  {
    var commands := PlanningGrounded.RunProjects(actions);
    CommandsPass(commands);
    PlanningGrounded.ReachableGroundOk(actions);
  }

  lemma CommandsPass(commands: seq<Command>)
    ensures var s := Run(commands);
            VersionsPass(s) && StrategiesPass(s) && ContentPasses(s) && PresentationsPass(s) && ApprovalsPass(s)
  {
    var s := Run(commands);
    PlanningSteps.ReachablePlanningOk(commands);
    TablesPassWhenOk(s);
    ContentPassesWhenOk(s);
    EvidencePassesWhenOk(s);
  }

  lemma TablesPassWhenOk(s: Planning)
    requires VersionsOk(s.plans, s.versions, s.strategies)
    ensures VersionsPass(s) && StrategiesPass(s)
  {
    forall p | p in s.plans ensures StrategyExists(s, p) {
      assert FollowsApproved(s.plans, s.versions, s.strategies, p);
    }
  }

  lemma ContentPassesWhenOk(s: Planning)
    requires ContentOk(s.versions, s.items, s.deps, s.progress)
    ensures ContentPasses(s)
  {
    forall v | v in s.deps ensures ItemGraphPasses(s, v) {
      assert GraphOk(s.items, v, s.deps[v]);
    }
  }

  lemma EvidencePassesWhenOk(s: Planning)
    requires LifecycleOk(s.versions) && EvidenceOk(s.versions, s.sources, s.messages, s.presentations)
    ensures PresentationsPass(s) && ApprovalsPass(s)
  {
    forall v | v in s.versions ensures ApprovedByUser(s, v) && ApprovedAfterPresentation(s, v) {
      assert ApprovalFits(s.versions[v]);
      if s.versions[v].status == Approved {
        assert Confirmed(s.sources, s.messages, s.presentations, v, s.versions[v].approval.value.source);
      }
    }
  }
}
