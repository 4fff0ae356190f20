/** Consolidating observations: new evidence supports one statement of a claim, contradicts
    its competitors, and an explicit correction supersedes them. */
module Consolidation {
  import opened Basics
  import opened Graphs

  type MessageId = nat

  /** A claim within a page scope; statements are compared normalized. */
  datatype Topic = Topic(claim: nat, scope: nat)

  datatype Status = Candidate | Active | Contested | Superseded

  datatype Stance = Supports | Contradicts

  datatype Evidence = Evidence(message: MessageId, stance: Stance, correction: bool)

  /** What a candidate brings: a message, whether it explicitly corrects earlier ones, and
      whether the user wrote it. */
  datatype Support = Support(message: MessageId, correction: bool, byUser: bool)

  datatype Error = NoEvidence | CorrectionNotByUser

  datatype Observation = Observation(topic: Topic, statement: nat, status: Status, confidence: real,
                                     supersededBy: Option<Id>, evidence: seq<Evidence>)

  type Observations = map<Id, Observation>

  // ----- evidence

  predicate HasMessage(evidence: seq<Evidence>, message: MessageId) {
    exists i :: 0 <= i < |evidence| && evidence[i].message == message
  }

  /** A message counts once per observation, with the stance it came with first. */
  function AddEvidence(evidence: seq<Evidence>, support: Support, stance: Stance): seq<Evidence> {
    if HasMessage(evidence, support.message) then evidence
    else evidence + [Evidence(support.message, stance, support.correction)]
  }

  function AddAll(evidence: seq<Evidence>, supports: seq<Support>, stance: Stance): seq<Evidence> {
    if supports == [] then evidence
    else AddEvidence(AddAll(evidence, supports[..|supports| - 1], stance), supports[|supports| - 1], stance)
  }

  predicate OncePerMessage(evidence: seq<Evidence>) {
    forall i, j :: 0 <= i < j < |evidence| ==> evidence[i].message != evidence[j].message
  }

  /** Adding evidence keeps one entry per message and every entry there was. */
  lemma {:induction false} AddAllKeepsEntries(evidence: seq<Evidence>, supports: seq<Support>, stance: Stance)
    requires OncePerMessage(evidence)
    ensures var more := AddAll(evidence, supports, stance);
            && OncePerMessage(more) && |evidence| <= |more| && more[..|evidence|] == evidence
            && forall k :: 0 <= k < |supports| ==> HasMessage(more, supports[k].message)
  {
    if supports != [] {
      var most, last := AddAll(evidence, supports[..|supports| - 1], stance), supports[|supports| - 1];
      AddAllKeepsEntries(evidence, supports[..|supports| - 1], stance);
      var more := AddEvidence(most, last, stance);
      assert forall i :: 0 <= i < |most| ==> more[i] == most[i];
      assert !HasMessage(most, last.message) ==> more[|most|].message == last.message;
      forall k | 0 <= k < |supports| ensures HasMessage(more, supports[k].message) {
        if k < |supports| - 1 {
          assert supports[..|supports| - 1][k] == supports[k];
          var i :| 0 <= i < |most| && most[i].message == supports[k].message;
          assert more[i].message == supports[k].message;
        }
      }
    }
  }

  /** Corrections weigh double. */
  function Weight(evidence: seq<Evidence>, stance: Stance): nat {
    if evidence == [] then 0
    else
      var e := evidence[|evidence| - 1];
      Weight(evidence[..|evidence| - 1], stance) + if e.stance != stance then 0 else if e.correction then 2 else 1
  }

  function Messages(evidence: seq<Evidence>, stance: Stance): nat {
    if evidence == [] then 0
    else Messages(evidence[..|evidence| - 1], stance) + if evidence[|evidence| - 1].stance == stance then 1 else 0
  }

  function Confidence(evidence: seq<Evidence>): real {
    var supports, total := Weight(evidence, Supports), Weight(evidence, Supports) + Weight(evidence, Contradicts);
    if total == 0 then 0.0 else supports as real / total as real
  }

  function DerivedStatus(evidence: seq<Evidence>): Status {
    if Messages(evidence, Supports) < 2 then Candidate
    else if Weight(evidence, Contradicts) > 0 then Contested
    else Active
  }

  // ----- weights

  function Entries(evidence: seq<Evidence>, stance: Stance): set<nat> {
    set i: nat | i < |evidence| && evidence[i].stance == stance
  }

  function Corrections(evidence: seq<Evidence>, stance: Stance): set<nat> {
    set i: nat | i < |evidence| && evidence[i].stance == stance && evidence[i].correction
  }

  lemma EntriesOfMore(evidence: seq<Evidence>, stance: Stance)
    requires evidence != []
    ensures var n := |evidence| - 1;
            && Entries(evidence, stance) == Entries(evidence[..n], stance) + (if evidence[n].stance == stance then {n} else {})
            && Corrections(evidence, stance) == Corrections(evidence[..n], stance)
                                                + (if evidence[n].stance == stance && evidence[n].correction then {n} else {})
  {
  }

  /** An entry weighs one, and one more if it is a correction. */
  lemma {:induction false} WeightCounts(evidence: seq<Evidence>, stance: Stance)
    ensures Weight(evidence, stance) == |Entries(evidence, stance)| + |Corrections(evidence, stance)|
    ensures Messages(evidence, stance) == |Entries(evidence, stance)|
  {
    if evidence == [] {
      assert Entries(evidence, stance) == {} && Corrections(evidence, stance) == {};
    } else {
      WeightCounts(evidence[..|evidence| - 1], stance);
      EntriesOfMore(evidence, stance);
    }
  }

  /** The share of the supporting weight. */
  ghost predicate IsTheShare(confidence: real, evidence: seq<Evidence>) {
    var supports := |Entries(evidence, Supports)| + |Corrections(evidence, Supports)|;
    var contradicts := |Entries(evidence, Contradicts)| + |Corrections(evidence, Contradicts)|;
    confidence == if supports + contradicts == 0 then 0.0 else supports as real / (supports + contradicts) as real
  }

  lemma ConfidenceIsTheShare(evidence: seq<Evidence>)
    ensures IsTheShare(Confidence(evidence), evidence)
  {
    WeightCounts(evidence, Supports);
    WeightCounts(evidence, Contradicts);
  }

  // ----- statuses

  ghost predicate TwoSupport(evidence: seq<Evidence>) {
    exists i, j :: 0 <= i < j < |evidence| && evidence[i].stance == Supports && evidence[j].stance == Supports
  }

  ghost predicate SomeContradicts(evidence: seq<Evidence>) {
    exists i :: 0 <= i < |evidence| && evidence[i].stance == Contradicts
  }

  /** Candidate before two entries support, then contested if any contradicts, else active. */
  ghost predicate StatusFits(o: Observation) {
    && (o.status == Candidate <==> !TwoSupport(o.evidence))
    && (o.status == Contested <==> TwoSupport(o.evidence) && SomeContradicts(o.evidence))
    && (o.status == Active <==> TwoSupport(o.evidence) && !SomeContradicts(o.evidence))
  }

  lemma TwoElements(s: set<nat>) returns (i: nat, j: nat)
    requires |s| >= 2
    ensures i < j && i in s && j in s
  {
    i :| i in s;
    DifferenceSize(s, {i});
    j :| j in s - {i};
    if j < i {
      i, j := j, i;
    }
  }

  lemma TwoEntries(evidence: seq<Evidence>)
    ensures |Entries(evidence, Supports)| >= 2 <==> TwoSupport(evidence)
  {
    var entries := Entries(evidence, Supports);
    if |entries| >= 2 {
      var i, j := TwoElements(entries);
      assert evidence[i].stance == Supports && evidence[j].stance == Supports;
    }
    if TwoSupport(evidence) {
      var i: nat, j: nat :| i < j < |evidence| && evidence[i].stance == Supports && evidence[j].stance == Supports;
      DifferenceSize(entries, {i, j});
    }
  }

  lemma SomeEntry(evidence: seq<Evidence>)
    ensures Weight(evidence, Contradicts) > 0 <==> SomeContradicts(evidence)
  {
    WeightCounts(evidence, Contradicts);
    if SomeContradicts(evidence) {
      var i: nat :| i < |evidence| && evidence[i].stance == Contradicts;
      assert i in Entries(evidence, Contradicts);
    } else {
      assert Entries(evidence, Contradicts) == {};
      assert Corrections(evidence, Contradicts) == {};
    }
  }

  lemma DerivedFits(o: Observation)
    requires o.status == DerivedStatus(o.evidence)
    ensures StatusFits(o)
  {
    WeightCounts(o.evidence, Supports);
    TwoEntries(o.evidence);
    SomeEntry(o.evidence);
  }

  // ----- the candidate's evidence, once per message

  predicate Mentions(supports: seq<Support>, message: MessageId) {
    exists i :: 0 <= i < |supports| && supports[i].message == message
  }

  /** A later support takes the place of an earlier one of the same message. */
  function Replace(supports: seq<Support>, support: Support): seq<Support> {
    seq(|supports|, i requires 0 <= i < |supports| =>
      if supports[i].message == support.message then support else supports[i])
  }

  /** One support per message, in the order of their first mention: the last one given. */
  function Distinct(supports: seq<Support>): seq<Support> {
    if supports == [] then []
    else
      var most, last := Distinct(supports[..|supports| - 1]), supports[|supports| - 1];
      if Mentions(most, last.message) then Replace(most, last) else most + [last]
  }

  /** The last support of its message. */
  ghost predicate IsLast(supports: seq<Support>, support: Support) {
    exists k :: 0 <= k < |supports| && supports[k] == support
                && forall j :: k < j < |supports| ==> supports[j].message != support.message
  }

  /** `distinct` has one support for every message mentioned: the last one given. */
  ghost predicate LastOfEach(supports: seq<Support>, distinct: seq<Support>) {
    && (forall i, j :: 0 <= i < j < |distinct| ==> distinct[i].message != distinct[j].message)
    && (forall i :: 0 <= i < |distinct| ==> IsLast(supports, distinct[i]))
    && (forall m :: Mentions(supports, m) <==> Mentions(distinct, m))
  }

  lemma {:induction false} DistinctIsLast(supports: seq<Support>)
    ensures LastOfEach(supports, Distinct(supports))
  {
    if supports != [] {
      var n := |supports| - 1;
      DistinctIsLast(supports[..n]);
      assert supports == supports[..n] + [supports[n]];
      OneMoreDistinct(supports[..n], Distinct(supports[..n]), supports[n]);
    }
  }

  lemma OneMoreDistinct(supports: seq<Support>, distinct: seq<Support>, last: Support)
    requires LastOfEach(supports, distinct)
    ensures LastOfEach(supports + [last], if Mentions(distinct, last.message) then Replace(distinct, last) else distinct + [last])
  {
    var more := if Mentions(distinct, last.message) then Replace(distinct, last) else distinct + [last];
    forall i | 0 <= i < |more| ensures IsLast(supports + [last], more[i]) {
      if i < |distinct| && distinct[i].message != last.message {
        StaysLast(supports, last, distinct[i]);
      } else {
        LastIsLast(supports, last);
      }
    }
    forall m ensures Mentions(supports + [last], m) <==> Mentions(more, m) {
      MentionsMore(supports, last, m);
      MentionsMore(distinct, last, m);
      ReplaceMentions(distinct, last, m);
    }
  }

  lemma StaysLast(supports: seq<Support>, last: Support, support: Support)
    requires IsLast(supports, support) && support.message != last.message
    ensures IsLast(supports + [last], support)
  {
    var k :| 0 <= k < |supports| && supports[k] == support
             && forall j :: k < j < |supports| ==> supports[j].message != support.message;
    assert (supports + [last])[k] == support;
  }

  lemma LastIsLast(supports: seq<Support>, last: Support)
    ensures IsLast(supports + [last], last)
  {
    assert (supports + [last])[|supports|] == last;
  }

  lemma MentionsMore(supports: seq<Support>, last: Support, m: MessageId)
    ensures Mentions(supports + [last], m) <==> Mentions(supports, m) || last.message == m
  {
    var more := supports + [last];
    if Mentions(supports, m) {
      var i :| 0 <= i < |supports| && supports[i].message == m;
      assert more[i].message == m;
    }
    if last.message == m { assert more[|supports|].message == m; }
  }

  lemma ReplaceMentions(supports: seq<Support>, last: Support, m: MessageId)
    ensures Mentions(Replace(supports, last), m) <==> Mentions(supports, m)
  {
    var after := Replace(supports, last);
    assert forall i :: 0 <= i < |supports| ==> after[i].message == supports[i].message;
  }

  // ----- what a table of observations keeps

  function SupersededEdges(observations: Observations): set<Edge> {
    set o | o in observations && observations[o].supersededBy.Some? :: (o, observations[o].supersededBy.value)
  }

  predicate Live(o: Observation) {
    o.status != Superseded
  }

  /** A superseded observation, and only that, names a successor of its own topic. */
  predicate SuccessorOk(observations: Observations, o: Id)
    requires o in observations
  {
    var next := observations[o].supersededBy;
    && (observations[o].status == Superseded <==> next.Some?)
    && (next.Some? ==> next.value in observations && observations[next.value].topic == observations[o].topic)
  }

  /** Live observations of a topic state different things. */
  ghost predicate LiveDistinct(observations: Observations) {
    forall o, p :: o in observations && p in observations && Live(observations[o]) && Live(observations[p]) ==>
      observations[o].topic == observations[p].topic && observations[o].statement == observations[p].statement ==> o == p
  }

  ghost predicate ObservationsOk(observations: Observations) {
    && (forall o {:trigger SuccessorOk(observations, o)} :: o in observations ==> SuccessorOk(observations, o))
    && Acyclic(SupersededEdges(observations))
    && LiveDistinct(observations)
    && (forall o :: o in observations ==>
          observations[o].confidence == Confidence(observations[o].evidence) && OncePerMessage(observations[o].evidence))
  }

  // ----- consolidating one candidate

  datatype Request = Request(topic: Topic, statement: nat, supports: seq<Support>)

  /** Why a candidate is refused before anything is read. */
  predicate Invalid(request: Request) {
    request.supports == []
    || exists i :: 0 <= i < |request.supports| && request.supports[i].correction && !request.supports[i].byUser
  }

  function Normalized(request: Request): Request {
    request.(supports := Distinct(request.supports))
  }

  function LiveOn(observations: Observations, topic: Topic): set<Id> {
    set o | o in observations && observations[o].topic == topic && Live(observations[o])
  }

  /** The live observation saying the same, if there is one. */
  predicate Says(observations: Observations, request: Request, o: Id) {
    o in LiveOn(observations, request.topic) && observations[o].statement == request.statement
  }

  predicate IsCorrection(request: Request, competing: set<Id>) {
    competing != {} && exists i :: 0 <= i < |request.supports| && request.supports[i].correction
  }

  function Empty(request: Request): Observation {
    Observation(request.topic, request.statement, Candidate, 0.0, None, [])
  }

  /** The observation that gains the support. */
  function Supported(o: Observation, request: Request, correction: bool): Observation {
    var evidence := AddAll(o.evidence, request.supports, Supports);
    o.(evidence := evidence, confidence := Confidence(evidence), status := if correction then Active else DerivedStatus(evidence))
  }

  /** A competitor: contradicted, and superseded if the request is a correction. */
  function Contradicted(o: Observation, request: Request, correction: bool, same: Id): Observation {
    var evidence := AddAll(o.evidence, request.supports, Contradicts);
    var refreshed := o.(evidence := evidence, confidence := Confidence(evidence), status := DerivedStatus(evidence));
    if correction then refreshed.(status := Superseded, supersededBy := Some(same)) else refreshed
  }

  /** The table after consolidating the request into observation `same`. */
  function Consolidated(observations: Observations, request: Request, same: Id): Observations {
    var competing := LiveOn(observations, request.topic) - {same};
    var correction := IsCorrection(request, competing);
    map o | o in observations.Keys + {same} ::
      if o == same then Supported(if o in observations then observations[o] else Empty(request), request, correction)
      else if o in competing then Contradicted(observations[o], request, correction, same)
      else observations[o]
  }

  /** `same` is the live observation with the statement, or a new one if there is none. */
  predicate Chooses(observations: Observations, request: Request, same: Id) {
    Says(observations, request, same)
    || (same !in observations && forall o :: o in LiveOn(observations, request.topic) ==> !Says(observations, request, o))
  }

  // ----- consolidation keeps the table in order

  lemma ConsolidatedEdges(observations: Observations, request: Request, same: Id)
    requires ObservationsOk(observations) && Chooses(observations, request, same)
    ensures forall e :: e in SupersededEdges(Consolidated(observations, request, same)) ==>
              e.0 != same && (e in SupersededEdges(observations) || e.1 == same)
  {
    var after := Consolidated(observations, request, same);
    forall e | e in SupersededEdges(after) ensures e.0 != same && (e in SupersededEdges(observations) || e.1 == same) {
      var o := e.0;
      assert o in observations ==> SuccessorOk(observations, o);
    }
  }

  lemma ConsolidatedSuccessors(observations: Observations, request: Request, same: Id, o: Id)
    requires ObservationsOk(observations) && Chooses(observations, request, same)
    requires o in Consolidated(observations, request, same)
    ensures SuccessorOk(Consolidated(observations, request, same), o)
  {
    var after := Consolidated(observations, request, same);
    if o in observations {
      assert SuccessorOk(observations, o);
    }
  }

  lemma ConsolidatedDistinct(observations: Observations, request: Request, same: Id)
    requires LiveDistinct(observations) && Chooses(observations, request, same)
    ensures LiveDistinct(Consolidated(observations, request, same))
  {
    var after := Consolidated(observations, request, same);
    forall o | o in after && Live(after[o]) ensures o == same || (o in observations && Live(observations[o])) {}
  }

  lemma ConsolidationKeepsOk(observations: Observations, request: Request, same: Id)
    requires ObservationsOk(observations) && Chooses(observations, request, same)
    ensures ObservationsOk(Consolidated(observations, request, same))
  {
    var after := Consolidated(observations, request, same);
    ConsolidatedEdges(observations, request, same);
    AddEdgesIntoSink(SupersededEdges(observations), SupersededEdges(after), same);
    ConsolidatedDistinct(observations, request, same);
    forall o | o in after
      ensures SuccessorOk(after, o) && OncePerMessage(after[o].evidence)
    {
      ConsolidatedSuccessors(observations, request, same, o);
      var was := if o in observations then observations[o].evidence else [];
      AddAllKeepsEntries(was, request.supports, Supports);
      AddAllKeepsEntries(was, request.supports, Contradicts);
    }
  }

  // ----- runs

  /** A request and the observation it is consolidated into. */
  datatype Step = Step(request: Request, same: Id)

  ghost function Run(steps: seq<Step>): Observations {
    if steps == [] then map[]
    else
      var before, step := Run(steps[..|steps| - 1]), steps[|steps| - 1];
      if !Invalid(step.request) && Chooses(before, step.request, step.same)
      then Consolidated(before, Normalized(step.request), step.same) else before
  }

  /** Over any sequence of consolidations: supersession is acyclic within topics, live
      statements of a topic differ, and confidence is weighted support over weighted total. */
  lemma {:induction false} ReachableObservationsOk(steps: seq<Step>)
    ensures ObservationsOk(Run(steps))
  {
    if steps == [] {
      RankedIsAcyclic(SupersededEdges(map[]), map[]);
    } else {
      var before, step := Run(steps[..|steps| - 1]), steps[|steps| - 1];
      ReachableObservationsOk(steps[..|steps| - 1]);
      if !Invalid(step.request) && Chooses(before, step.request, step.same) {
        ConsolidationKeepsOk(before, Normalized(step.request), step.same);
      }
    }
  }

  // ----- where supersession leads

  /** A chain of successors within one topic. */
  ghost predicate IsChain(observations: Observations, path: seq<Id>) {
    && IsPath(SupersededEdges(observations), path)
    && forall i :: 0 <= i < |path| ==>
         path[i] in observations && path[0] in observations && observations[path[i]].topic == observations[path[0]].topic
  }

  /** Every chain of successors ends in a live observation of the same topic. */
  lemma ChainEndsLive(observations: Observations, o: Id) returns (path: seq<Id>)
    requires ObservationsOk(observations) && o in observations
    ensures IsChain(observations, path) && path[0] == o && Live(observations[path[|path| - 1]])
  {
    path := FollowChain(observations, [o]);
  }

  lemma FollowChain(observations: Observations, path: seq<Id>) returns (whole: seq<Id>)
    requires ObservationsOk(observations) && IsChain(observations, path)
    ensures IsChain(observations, whole) && whole[0] == path[0] && Live(observations[whole[|whole| - 1]])
    decreases |observations.Keys - Elements(path)|
  {
    if Live(observations[path[|path| - 1]]) {
      return path;
    }
    var next := NextInChain(observations, path);
    whole := FollowChain(observations, path + [next]);
  }

  lemma NextInChain(observations: Observations, path: seq<Id>) returns (next: Id)
    requires ObservationsOk(observations) && IsChain(observations, path)
    requires !Live(observations[path[|path| - 1]])
    ensures IsChain(observations, path + [next])
    ensures |observations.Keys - Elements(path + [next])| < |observations.Keys - Elements(path)|
  {
    var edges, end := SupersededEdges(observations), path[|path| - 1];
    assert SuccessorOk(observations, end);
    next := observations[end].supersededBy.value;
    assert (end, next) in edges;
    LongerChain(observations, path, next);
    NoRepeat(edges, path, next);
    assert Elements(path + [next]) == Elements(path) + {next};
    SmallerDifference(observations.Keys, Elements(path), next);
  }

  lemma LongerChain(observations: Observations, path: seq<Id>, next: Id)
    requires IsChain(observations, path) && (path[|path| - 1], next) in SupersededEdges(observations)
    requires next in observations && observations[next].topic == observations[path[|path| - 1]].topic
    ensures IsChain(observations, path + [next])
  {
    var longer := path + [next];
    ExtendPath(SupersededEdges(observations), path, next);
    forall i | 0 <= i < |longer|
      ensures longer[i] in observations && observations[longer[i]].topic == observations[path[0]].topic
    {
      if i < |path| { assert longer[i] == path[i]; }
    }
    assert longer[0] == path[0];
  }

  lemma NoRepeat(edges: set<Edge>, path: seq<Id>, next: Id)
    requires Acyclic(edges) && IsPath(edges, path) && IsPath(edges, path + [next])
    ensures next !in Elements(path)
  {
    var longer := path + [next];
    forall k | 0 <= k < |path| ensures path[k] != next {
      SubPath(edges, longer, k, |longer|);
      assert !IsCycle(edges, longer[k..|longer|]);
    }
  }

  // ----- the service

  class ObservationConsolidationService {
    var observations: Observations

    ghost predicate Valid()
      reads this
    {
      ObservationsOk(observations)
    }

    constructor ()
      ensures Valid() && observations == map[]
    {
      observations := map[];
      new;
      RankedIsAcyclic(SupersededEdges(observations), map[]);
    }

    /** Adds one piece of evidence to an observation unless its message already counted. */
    method AddTo(o: Id, support: Support, stance: Stance)
      requires o in observations
      modifies this
      ensures observations == old(observations)[o := old(observations[o]).(evidence := AddEvidence(old(observations[o].evidence), support, stance))]
    {
      if !HasMessage(observations[o].evidence, support.message) {
        var more := observations[o].evidence + [Evidence(support.message, stance, support.correction)];
        observations := observations[o := observations[o].(evidence := more)];
      } else {
        assert observations == observations[o := observations[o]];
      }
    }

    /** Recomputes confidence and, while the observation is live, its status. */
    method Refresh(o: Id)
      requires o in observations && Live(observations[o])
      modifies this
      ensures var was := old(observations[o]);
              observations == old(observations)[o := was.(confidence := Confidence(was.evidence), status := DerivedStatus(was.evidence))]
      ensures o in observations && StatusFits(observations[o]) && IsTheShare(observations[o].confidence, observations[o].evidence)
    {
      var evidence := observations[o].evidence;
      var supports, contradicts, messages := 0, 0, 0;
      for i := 0 to |evidence|
        invariant supports == Weight(evidence[..i], Supports) && contradicts == Weight(evidence[..i], Contradicts)
        invariant messages == Messages(evidence[..i], Supports) && observations == old(observations)
      {
        assert evidence[..i + 1][..i] == evidence[..i];
        var weight := if evidence[i].correction then 2 else 1;
        if evidence[i].stance == Supports {
          supports, messages := supports + weight, messages + 1;
        } else {
          contradicts := contradicts + weight;
        }
      }
      assert evidence[..|evidence|] == evidence;
      var total := supports + contradicts;
      var confidence := if total > 0 then supports as real / total as real else 0.0;
      var status := if messages < 2 then Candidate else if contradicts > 0 then Contested else Active;
      observations := observations[o := observations[o].(confidence := confidence, status := status)];
      DerivedFits(observations[o]);
      ConfidenceIsTheShare(evidence);
    }

    /** The live observation with the request's statement, or a new one. */
    method FindOrCreate(request: Request, newId: Id) returns (same: Id)
      requires Valid() && newId !in observations
      modifies this
      ensures Chooses(old(observations), request, same)
      ensures observations == if same in old(observations) then old(observations)
                              else old(observations)[same := Empty(request)]
    {
      if o :| o in observations && Says(observations, request, o) {
        return o;
      }
      observations := observations[newId := Empty(request)];
      return newId;
    }

    /** Adds the request's evidence: for the chosen observation, against its competitors. */
    method AddRequest(request: Request, same: Id, competing: set<Id>)
      requires same in observations && competing <= observations.Keys && same !in competing
      modifies this
      ensures observations.Keys == old(observations).Keys
      ensures forall o :: o in observations ==> observations[o] == WithRequest(old(observations), o, request.supports, same, competing)
    {
      ghost var before := observations;
      for i := 0 to |request.supports|
        invariant observations.Keys == before.Keys
        invariant forall o :: o in before ==> observations[o] == WithRequest(before, o, request.supports[..i], same, competing)
      {
        AddOne(request.supports[i], same, competing);
        assert request.supports[..i + 1][..i] == request.supports[..i];
      }
      assert request.supports[..|request.supports|] == request.supports;
    }

    method AddOne(support: Support, same: Id, competing: set<Id>)
      requires same in observations && competing <= observations.Keys && same !in competing
      modifies this
      ensures observations.Keys == old(observations).Keys
      ensures forall o :: o in observations ==> observations[o] == WithOne(old(observations), o, support, same, competing)
    {
      ghost var before := observations;
      AddTo(same, support, Supports);
      var left := competing;
      while left != {}
        invariant left <= competing && observations.Keys == before.Keys
        invariant forall o :: o in before ==> observations[o] == WithOne(before, o, support, same, competing - left)
        decreases left
      {
        var rival :| rival in left;
        AddTo(rival, support, Contradicts);
        left := left - {rival};
      }
      assert competing - {} == competing;
    }

    /** Refreshes one competitor, and supersedes it on a correction. */
    method SettleRival(rival: Id, same: Id, correction: bool)
      requires rival in observations && Live(observations[rival]) && rival != same
      modifies this
      ensures observations == old(observations)[rival := Settled(old(observations), rival, same, {rival}, correction)]
    {
      Refresh(rival);
      if correction {
        observations := observations[rival := observations[rival].(status := Superseded, supersededBy := Some(same))];
      }
    }

    method SettleRivals(same: Id, competing: set<Id>, correction: bool)
      requires competing <= observations.Keys && same !in competing
      requires forall o :: o in competing ==> Live(observations[o])
      modifies this
      ensures observations.Keys == old(observations).Keys
      ensures forall o :: o in observations && o in competing ==>
                observations[o] == Settled(old(observations), o, same, competing, correction)
      ensures forall o :: o in observations && o !in competing ==> observations[o] == old(observations)[o]
    {
      ghost var before := observations;
      var left := competing;
      while left != {}
        invariant left <= competing && observations.Keys == before.Keys
        invariant forall o :: o in competing - left ==> observations[o] == Settled(before, o, same, competing, correction)
        invariant forall o :: o in before && o !in competing - left ==> observations[o] == before[o]
        decreases left
      {
        var rival :| rival in left;
        SettleRival(rival, same, correction);
        left := left - {rival};
      }
    }

    /** Refreshes the chosen observation and its competitors; a correction supersedes them. */
    method Settle(same: Id, competing: set<Id>, correction: bool)
      requires same in observations && competing <= observations.Keys && same !in competing
      requires Live(observations[same]) && forall o :: o in competing ==> Live(observations[o])
      modifies this
      ensures observations.Keys == old(observations).Keys
      ensures forall o :: o in observations ==> observations[o] == Settled(old(observations), o, same, competing, correction)
    {
      Refresh(same);
      SettleRivals(same, competing, correction);
      if correction {
        observations := observations[same := observations[same].(status := Active)];
      }
    }

    /** The checks on a candidate, and its evidence with one entry per message. */
    method Validate(request: Request) returns (r: Result<seq<Support>, Error>)
      ensures r.Err? <==> Invalid(request)
      ensures r.Err? ==> r.error == if request.supports == [] then NoEvidence else CorrectionNotByUser
      ensures r.Ok? ==> r.value == Distinct(request.supports)
    {
      var supports := request.supports;
      if supports == [] {
        return Err(NoEvidence);
      }
      var distinct := [];
      for i := 0 to |supports|
        invariant distinct == Distinct(supports[..i])
        invariant forall j :: 0 <= j < i ==> supports[j].correction ==> supports[j].byUser
      {
        if supports[i].correction && !supports[i].byUser {
          return Err(CorrectionNotByUser);
        }
        assert supports[..i + 1][..i] == supports[..i];
        distinct := if Mentions(distinct, supports[i].message) then Replace(distinct, supports[i])
                    else distinct + [supports[i]];
      }
      assert supports[..|supports|] == supports;
      return Ok(distinct);
    }

    method Consolidate(request: Request, newId: Id) returns (r: Result<Id, Error>)
      requires Valid() && newId !in observations
      modifies this
      ensures Valid() && (r.Err? <==> Invalid(request)) && (r.Err? ==> observations == old(observations))
      ensures r == Err(NoEvidence) <==> request.supports == []
      ensures r == Err(CorrectionNotByUser) <==>
                exists i :: 0 <= i < |request.supports| && request.supports[i].correction && !request.supports[i].byUser
      ensures r.Ok? ==> Chooses(old(observations), request, r.value)
                        && observations == Consolidated(old(observations), Normalized(request), r.value)
    {
      var supports := Validate(request);
      if supports.Err? {
        return Err(supports.error);
      }
      var same := ConsolidateDistinct(request.(supports := supports.value), newId);
      return Ok(same);
    }

    method ConsolidateDistinct(request: Request, newId: Id) returns (same: Id)
      requires Valid() && newId !in observations
      modifies this
      ensures Valid() && Chooses(old(observations), request, same)
      ensures observations == Consolidated(old(observations), request, same)
    {
      ghost var before := observations;
      var live := LiveOn(observations, request.topic);
      same := FindOrCreate(request, newId);
      var competing := live - {same};
      ghost var found := observations;
      AddRequest(request, same, competing);
      ghost var added := observations;
      var correction := IsCorrection(request, competing);
      Settle(same, competing, correction);
      ConsolidationKeepsOk(before, request, same);
      InSteps(before, found, added, observations, request, same);
    }
  }

  // ----- the parts of a consolidation

  function WithOne(observations: Observations, o: Id, support: Support, same: Id, competing: set<Id>): Observation
    requires o in observations
  {
    var row := observations[o];
    if o == same then row.(evidence := AddEvidence(row.evidence, support, Supports))
    else if o in competing then row.(evidence := AddEvidence(row.evidence, support, Contradicts))
    else row
  }

  function WithRequest(observations: Observations, o: Id, supports: seq<Support>, same: Id, competing: set<Id>): Observation
    requires o in observations
  {
    var row := observations[o];
    if o == same then row.(evidence := AddAll(row.evidence, supports, Supports))
    else if o in competing then row.(evidence := AddAll(row.evidence, supports, Contradicts))
    else row
  }

  function Settled(observations: Observations, o: Id, same: Id, competing: set<Id>, correction: bool): Observation
    requires o in observations
  {
    var row := observations[o];
    var refreshed := row.(confidence := Confidence(row.evidence), status := DerivedStatus(row.evidence));
    if o == same then (if correction then refreshed.(status := Active) else refreshed)
    else if o in competing then
      (if correction then refreshed.(status := Superseded, supersededBy := Some(same)) else refreshed)
    else row
  }

  /** Choosing, adding the evidence and settling make up a consolidation. */
  lemma InSteps(before: Observations, found: Observations, added: Observations, after: Observations, request: Request, same: Id)
    requires Chooses(before, request, same)
    requires found == if same in before then before else before[same := Empty(request)]
    requires added.Keys == found.Keys && after.Keys == found.Keys
    requires var competing := LiveOn(before, request.topic) - {same};
             && (forall o :: o in found ==> added[o] == WithRequest(found, o, request.supports, same, competing))
             && (forall o :: o in found ==> after[o] == Settled(added, o, same, competing, IsCorrection(request, competing)))
    ensures after == Consolidated(before, request, same)
  {
    var goal := Consolidated(before, request, same);
    forall o | o in goal ensures o in after && after[o] == goal[o] {
      assert o in found && added[o] == WithRequest(found, o, request.supports, same, LiveOn(before, request.topic) - {same});
    }
    assert after.Keys == goal.Keys;
  }
}
