/** Planning state as values, and the planning write services as functions on it. Each
    action is one transaction: it either completes or leaves the state unchanged. */
module PlanningModel {
  import opened Basics
  import opened Graphs
  import opened PlanGraph
  import opened PlanNextAction

  datatype Error =
    | NotFound | InvalidPayload | InvalidBasis | DependencyCycle | Conflict | NotUserMessage | NotAssistantMessage
    | NotCandidate | NotPresented | NotFormerlyApproved | NoCurrentApproved | MissingStrategy | NotApproved | NoProgress
    | NoSource | NoEvidence | SecondPrimary

  datatype VersionStatus = Candidate | Approved | Superseded | Rejected

  datatype Approval = Approval(source: Id, at: Time)

  datatype VersionRow = VersionRow(plan: Id, number: nat, status: VersionStatus, approach: string, rationale: string,
                                   basedOn: Option<Id>, approval: Option<Approval>)

  datatype ItemRow = ItemRow(version: Id, ordinal: nat, title: string)

  datatype StrategyRow = StrategyRow(approach: string, rationale: string, acceptedFrom: Id, source: Id, at: Time)

  datatype ProgressRow = ProgressRow(status: ProgressStatus, note: Option<string>, source: Id)

  datatype Author = User | Assistant

  datatype MessageRow = MessageRow(author: Author, conversation: Id, sentAt: Time)

  datatype SourceRow = SourceRow(isUserMessage: bool, message: Option<Id>)

  type Plans = map<Id, Option<Id>>
  type Versions = map<Id, VersionRow>
  type Items = map<Id, ItemRow>
  type Strategies = map<Id, StrategyRow>
  type Progress = map<Id, ProgressRow>
  type Messages = map<Id, MessageRow>
  type Sources = map<Id, SourceRow>
  /** When each version was presented in each message. */
  type Presentations = map<(Id, Id), Time>

  /** A plan maps to its strategy; `rejections` are the logged rejections of a version by a source. */
  datatype Planning = Planning(plans: Plans, versions: Versions, items: Items, deps: map<Id, set<Edge>>,
                               strategies: Strategies, progress: Progress, presentations: Presentations,
                               messages: Messages, sources: Sources, rejections: set<(Id, Id)>)

  datatype ItemDraft = ItemDraft(handle: Id, ordinal: nat, title: string)

  /** `ids` are the identifiers the server assigns to the payload's temporary handles. */
  datatype Draft = Draft(items: seq<ItemDraft>, dependencies: seq<Edge>, approach: string, rationale: string,
                         basedOn: Option<Id>, ids: map<Id, Id>)

  datatype Command =
    | AddMessage(message: Id, row: MessageRow)
    | AddSource(added: Id, sourceRow: SourceRow)
    | CreatePlan(plan: Id)
    | CreateCandidate(plan: Id, version: Id, draft: Draft)
    | Present(version: Id, message: Id, now: Time)
    | Reject(version: Id, source: Option<Id>)
    | Approve(version: Id, source: Option<Id>, strategy: Id, now: Time)
    | Reactivate(version: Id, source: Option<Id>, strategy: Id, now: Time)
    | UpdateProgress(item: Id, status: ProgressStatus, note: Option<string>, source: Option<Id>)

  // ----- lookups

  /** The user's message behind a source, if it is one. */
  function UserMessage(sources: Sources, messages: Messages, source: Option<Id>): Option<MessageRow> {
    if source.Some? && source.value in sources && sources[source.value].isUserMessage && sources[source.value].message.Some?
       && sources[source.value].message.value in messages && messages[sources[source.value].message.value].author == User
    then Some(messages[sources[source.value].message.value]) else None
  }

  /** An assistant message of the same conversation presented the version before the user's message. */
  predicate Presented(presentations: Presentations, messages: Messages, version: Id, approval: MessageRow) {
    exists k :: k in presentations && PresentedBy(presentations, messages, version, approval, k)
  }

  predicate PresentedBy(presentations: Presentations, messages: Messages, version: Id, approval: MessageRow, k: (Id, Id))
    requires k in presentations
  {
    && k.0 == version && k.1 in messages && messages[k.1].author == Assistant
    && messages[k.1].conversation == approval.conversation && presentations[k] <= approval.sentAt
  }

  predicate IsOf(versions: Versions, v: Id, plan: Id, status: VersionStatus) {
    v in versions && versions[v].plan == plan && versions[v].status == status
  }

  function VersionsOf(versions: Versions, plan: Id): set<Id> {
    set v | v in versions && versions[v].plan == plan
  }

  function ItemsOf(items: Items, version: Id): set<Id> {
    set i | i in items && items[i].version == version
  }

  /** The largest version number in use, zero without versions. */
  function LargestNumber(versions: Versions, among: set<Id>): (r: nat)
    requires among <= versions.Keys
    ensures forall v :: v in among ==> versions[v].number <= r
    ensures r == 0 || exists v :: v in among && versions[v].number == r
  {
    if among == {} then 0
    else
      var v := Least(among);
      var rest := LargestNumber(versions, among - {v});
      if rest < versions[v].number then versions[v].number else rest
  }

  // ----- writes

  /** Supersedes the plan's versions of the given status. */
  function Retire(versions: Versions, plan: Id, status: VersionStatus): Versions {
    map v | v in versions ::
      if versions[v].plan == plan && versions[v].status == status then versions[v].(status := Superseded) else versions[v]
  }

  /** The version is the approved one now; a reactivated version keeps its first approval. */
  function MakeApproved(versions: Versions, v: Id, approval: Option<Approval>): Versions
    requires v in versions
  {
    Retire(versions, versions[v].plan, Approved)[v := versions[v].(status := Approved, approval := approval)]
  }

  function AcceptStrategy(s: Planning, v: Id, source: Id, newId: Id, now: Time): Planning
    requires v in s.versions && s.versions[v].plan in s.plans
  {
    var plan := s.versions[v].plan;
    var id := if s.plans[plan].Some? then s.plans[plan].value else newId;
    var row := StrategyRow(s.versions[v].approach, s.versions[v].rationale, v, source, now);
    s.(strategies := s.strategies[id := row], plans := s.plans[plan := Some(id)])
  }

  function InitialProgress(items: Items, version: Id, source: Id): Progress {
    map i | i in ItemsOf(items, version) :: ProgressRow(NotStarted, None, source)
  }

  // ----- actions

  function Handles(items: seq<ItemDraft>): seq<Id> {
    seq(|items|, i requires 0 <= i < |items| => items[i].handle)
  }

  function Ordinals(items: seq<ItemDraft>): seq<nat> {
    seq(|items|, i requires 0 <= i < |items| => items[i].ordinal)
  }

  /** Each handle gets its own identifier, not in use. */
  predicate Assigned(s: Planning, draft: Draft) {
    && (forall i :: 0 <= i < |draft.items| ==> draft.items[i].handle in draft.ids)
    && (forall h, k :: h in draft.ids && k in draft.ids && draft.ids[h] == draft.ids[k] ==> h == k)
    && (forall h :: h in draft.ids ==> draft.ids[h] !in s.items && draft.ids[h] !in s.progress)
  }

  function PersistedItems(draft: Draft, version: Id, n: nat): Items
    requires n <= |draft.items| && forall i :: 0 <= i < n ==> draft.items[i].handle in draft.ids
  {
    if n == 0 then map[]
    else
      var item := draft.items[n - 1];
      PersistedItems(draft, version, n - 1)[draft.ids[item.handle] := ItemRow(version, item.ordinal, item.title)]
  }

  function PersistedEdges(dependencies: set<Edge>, ids: map<Id, Id>): set<Edge>
    requires forall e :: e in dependencies ==> e.0 in ids && e.1 in ids
  {
    set e | e in dependencies :: (ids[e.0], ids[e.1])
  }

  ghost function CreateCandidateResult(s: Planning, plan: Id, version: Id, draft: Draft): Result<Planning, Error> {
    var handles, dependencies := Handles(draft.items), EdgeSet(draft.dependencies);
    if !WellFormed(handles, Ordinals(draft.items), draft.dependencies) then Err(InvalidPayload)
    else if version in s.versions || !Assigned(s, draft) then Err(Conflict)
    else if plan !in s.plans then Err(NotFound)
    else if draft.basedOn.Some? && (draft.basedOn.value !in s.versions || s.versions[draft.basedOn.value].plan != plan)
         then Err(InvalidBasis)
    else if !Acyclic(dependencies) then Err(DependencyCycle)
    else
      EndpointsAssigned(draft);
      var row := VersionRow(plan, LargestNumber(s.versions, VersionsOf(s.versions, plan)) + 1, Candidate,
                            draft.approach, draft.rationale, draft.basedOn, None);
      Ok(s.(versions := Retire(s.versions, plan, Candidate)[version := row],
            items := s.items + PersistedItems(draft, version, |draft.items|),
            deps := s.deps[version := PersistedEdges(dependencies, draft.ids)]))
  }

  lemma EndpointsAssigned(draft: Draft)
    requires Known(Elements(Handles(draft.items)), draft.dependencies)
    requires forall i :: 0 <= i < |draft.items| ==> draft.items[i].handle in draft.ids
    ensures forall e :: e in EdgeSet(draft.dependencies) ==> e.0 in draft.ids && e.1 in draft.ids
  {
    assert forall h :: h in Elements(Handles(draft.items)) ==> h in Handles(draft.items);
  }

  function PresentResult(s: Planning, version: Id, message: Id, now: Time): Result<Planning, Error> {
    if version !in s.versions || s.versions[version].plan !in s.plans then Err(NotFound)
    else if message !in s.messages || s.messages[message].author != Assistant then Err(NotAssistantMessage)
    else if (version, message) in s.presentations then Ok(s)
    else Ok(s.(presentations := s.presentations[(version, message) := now]))
  }

  function RejectResult(s: Planning, version: Id, source: Option<Id>): Result<Planning, Error> {
    if UserMessage(s.sources, s.messages, source).None? then Err(NotUserMessage)
    else if version !in s.versions || s.versions[version].plan !in s.plans then Err(NotFound)
    else if s.versions[version].status == Rejected && (version, source.value) in s.rejections then Ok(s)
    else if s.versions[version].status != Candidate then Err(NotCandidate)
    else Ok(s.(versions := s.versions[version := s.versions[version].(status := Rejected)],
               rejections := s.rejections + {(version, source.value)}))
  }

  /** The writes of an approval. */
  function Approving(s: Planning, version: Id, source: Id, newId: Id, now: Time): Planning
    requires version in s.versions && s.versions[version].plan in s.plans
  {
    var approved := s.(versions := MakeApproved(s.versions, version, Some(Approval(source, now))));
    var accepted := AcceptStrategy(approved, version, source, newId, now);
    accepted.(progress := s.progress + InitialProgress(s.items, version, source))
  }

  /** The writes of a reactivation: the version keeps its first approval. */
  function Reactivating(s: Planning, version: Id, source: Id, newId: Id, now: Time): Planning
    requires version in s.versions && s.versions[version].plan in s.plans
  {
    var approved := s.(versions := MakeApproved(s.versions, version, s.versions[version].approval));
    AcceptStrategy(approved, version, source, newId, now)
  }

  function ApproveResult(s: Planning, version: Id, source: Option<Id>, newId: Id, now: Time): Result<Planning, Error> {
    var message := UserMessage(s.sources, s.messages, source);
    if message.None? then Err(NotUserMessage)
    else if version !in s.versions || s.versions[version].plan !in s.plans then Err(NotFound)
    else
      var row := s.versions[version];
      if row.status == Approved && row.approval.Some? && row.approval.value.source == source.value then Ok(s)
      else if row.status != Candidate then Err(NotCandidate)
      else if !Presented(s.presentations, s.messages, version, message.value) then Err(NotPresented)
      else if s.plans[row.plan].Some? && s.plans[row.plan].value !in s.strategies then Err(MissingStrategy)
      else if s.plans[row.plan].None? && newId in s.strategies then Err(Conflict)
      else Ok(Approving(s, version, source.value, newId, now))
  }

  function ReactivateResult(s: Planning, version: Id, source: Option<Id>, newId: Id, now: Time): Result<Planning, Error> {
    var message := UserMessage(s.sources, s.messages, source);
    if message.None? then Err(NotUserMessage)
    else if version !in s.versions || s.versions[version].plan !in s.plans then Err(NotFound)
    else
      var row := s.versions[version];
      if row.status == Approved then Ok(s)
      else if row.status != Superseded || row.approval.None? then Err(NotFormerlyApproved)
      else if !Presented(s.presentations, s.messages, version, message.value) then Err(NotPresented)
      else if !(exists v :: v in s.versions && IsOf(s.versions, v, row.plan, Approved)) then Err(NoCurrentApproved)
      else if s.plans[row.plan].Some? && s.plans[row.plan].value !in s.strategies then Err(MissingStrategy)
      else if s.plans[row.plan].None? && newId in s.strategies then Err(Conflict)
      else Ok(Reactivating(s, version, source.value, newId, now))
  }

  /** Repeating a status from the same source changes nothing, not even the note. */
  function UpdateProgressResult(s: Planning, item: Id, status: ProgressStatus, note: Option<string>, source: Option<Id>):
    Result<Planning, Error>
  {
    if UserMessage(s.sources, s.messages, source).None? then Err(NotUserMessage)
    else if item !in s.items || s.items[item].version !in s.versions
            || s.versions[s.items[item].version].plan !in s.plans then Err(NotFound)
    else if s.versions[s.items[item].version].status != Approved then Err(NotApproved)
    else if item !in s.progress then Err(NoProgress)
    else if s.progress[item].status == status && s.progress[item].source == source.value then Ok(s)
    else Ok(s.(progress := s.progress[item := ProgressRow(status, note, source.value)]))
  }

  ghost function Execute(s: Planning, c: Command): Result<Planning, Error> {
    match c
    case AddMessage(id, row) => if id in s.messages then Err(Conflict) else Ok(s.(messages := s.messages[id := row]))
    case AddSource(id, row) => if id in s.sources then Err(Conflict) else Ok(s.(sources := s.sources[id := row]))
    case CreatePlan(id) => if id in s.plans then Err(Conflict) else Ok(s.(plans := s.plans[id := None]))
    case CreateCandidate(plan, version, draft) => CreateCandidateResult(s, plan, version, draft)
    case Present(version, message, now) => PresentResult(s, version, message, now)
    case Reject(version, source) => RejectResult(s, version, source)
    case Approve(version, source, strategy, now) => ApproveResult(s, version, source, strategy, now)
    case Reactivate(version, source, strategy, now) => ReactivateResult(s, version, source, strategy, now)
    case UpdateProgress(item, status, note, source) => UpdateProgressResult(s, item, status, note, source)
  }

  const EMPTY := Planning(map[], map[], map[], map[], map[], map[], map[], map[], map[], {})

  ghost function Next(s: Planning, c: Command): Planning {
    match Execute(s, c)
    case Ok(next) => next
    case Err(_) => s
  }

  /** A run: rejected commands leave the state as it was. */
  ghost function Run(commands: seq<Command>): Planning
    decreases |commands|
  {
    if commands == [] then EMPTY
    else Next(Run(commands[..|commands| - 1]), commands[|commands| - 1])
  }
}
