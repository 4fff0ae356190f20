/** What the query offers, in terms of the draft an approved version was created from: its
    items in order, and the dependencies the draft named. */
module PlanningOffers {
  import opened Basics
  import opened Graphs
  import opened PlanNextAction
  import opened PlanningModel
  import opened PlanningLifecycle
  import opened PlanningSteps
  import opened PlanningRuns
  import opened PlanningOutcomes

  // ----- every version has its draft

  /** The `k`-th command created the version from the draft. */
  ghost predicate DraftedAt(commands: seq<Command>, k: nat, version: Id, draft: Draft) {
    && k < |commands| && commands[k].CreateCandidate? && commands[k].version == version && commands[k].draft == draft
    && Execute(Run(commands[..k]), commands[k]).Ok?
  }

  lemma NewVersionIsDrafted(s: Planning, c: Command, version: Id)
    requires version in Next(s, c).versions && version !in s.versions
    ensures c.CreateCandidate? && c.version == version && Execute(s, c).Ok?
  {
  }

  lemma {:induction false} EveryVersionWasDrafted(commands: seq<Command>, version: Id) returns (k: nat, draft: Draft)
    requires version in Run(commands).versions
    ensures DraftedAt(commands, k, version, draft)
    decreases |commands|
  {
    var n := |commands| - 1;
    if version in Run(commands[..n]).versions {
      k, draft := EveryVersionWasDrafted(commands[..n], version);
      assert commands[..n][..k] == commands[..k];
    } else {
      NewVersionIsDrafted(Run(commands[..n]), commands[n], version);
      k, draft := n, commands[n].draft;
    }
  }

  /** No command touches the items or dependencies of a version that is there. */
  lemma ContentStays(s: Planning, c: Command, version: Id)
    requires version in s.versions && version in s.deps && forall i :: i in s.items ==> s.items[i].version in s.versions
    ensures version in Next(s, c).deps && Next(s, c).deps[version] == s.deps[version]
    ensures forall i :: i in s.items && s.items[i].version == version ==> i in Next(s, c).items && Next(s, c).items[i] == s.items[i]
    ensures forall i :: i in Next(s, c).items && Next(s, c).items[i].version == version ==>
              i in s.items && s.items[i] == Next(s, c).items[i]
  {
    if c.CreateCandidate? && Execute(s, c).Ok? {
      CandidateAssigned(s, c.plan, c.version, c.draft);
      PersistedItemsHold(c.draft, c.version, |c.draft.items|);
      PersistedItemsAre(c.draft, c.version, |c.draft.items|);
      CandidateContent(s, c);
    }
  }

  lemma CandidateContent(s: Planning, c: Command)
    requires c.CreateCandidate? && Execute(s, c).Ok?
    ensures HandlesAssigned(c.draft)
    ensures Next(s, c).items == s.items + PersistedItems(c.draft, c.version, |c.draft.items|)
    ensures c.version !in s.versions && forall v :: v in s.deps && v != c.version ==> v in Next(s, c).deps && Next(s, c).deps[v] == s.deps[v]
  {
    CandidateAssigned(s, c.plan, c.version, c.draft);
  }

  lemma StoresFrame(items: Items, deps: map<Id, set<Edge>>, items': Items, deps': map<Id, set<Edge>>, version: Id, draft: Draft)
    requires StoresDraft(items, deps, version, draft) && version in deps' && deps'[version] == deps[version]
    requires forall i :: i in items && items[i].version == version ==> i in items' && items'[i] == items[i]
    requires forall i :: i in items' && items'[i].version == version ==> i in items && items[i] == items'[i]
    ensures StoresDraft(items', deps', version, draft)
  {
  }

  ghost predicate ItemsHaveVersions(s: Planning) {
    forall i :: i in s.items ==> s.items[i].version in s.versions
  }

  lemma StoredStays(s: Planning, c: Command, version: Id, draft: Draft)
    requires version in s.versions && StoresDraft(s.items, s.deps, version, draft) && ItemsHaveVersions(s)
    ensures version in Next(s, c).versions && StoresDraft(Next(s, c).items, Next(s, c).deps, version, draft)
  {
    ContentStays(s, c, version);
    VersionsStay(s, c);
    StoresFrame(s.items, s.deps, Next(s, c).items, Next(s, c).deps, version, draft);
  }

  lemma StoredNow(s: Planning, c: Command)
    requires c.CreateCandidate? && Execute(s, c).Ok? && ItemsHaveVersions(s)
    ensures c.version in Next(s, c).versions && StoresDraft(Next(s, c).items, Next(s, c).deps, c.version, c.draft)
  {
    CandidateStored(s, c.plan, c.version, c.draft);
  }

  lemma ReachableItemsHaveVersions(commands: seq<Command>)
    ensures ItemsHaveVersions(Run(commands))
  {
    ReachablePlanningOk(commands);
  }

  ghost predicate KeepsDraft(s: Planning, version: Id, draft: Draft) {
    version in s.versions && StoresDraft(s.items, s.deps, version, draft)
  }

  lemma DraftedLast(commands: seq<Command>, version: Id, draft: Draft)
    requires commands != [] && DraftedAt(commands, |commands| - 1, version, draft)
    ensures KeepsDraft(Run(commands), version, draft)
  {
    var n := |commands| - 1;
    ReachableItemsHaveVersions(commands[..n]);
    StoredNow(Run(commands[..n]), commands[n]);
  }

  lemma DraftedBefore(commands: seq<Command>, k: nat, version: Id, draft: Draft)
    requires commands != [] && k < |commands| - 1 && DraftedAt(commands, k, version, draft)
    ensures DraftedAt(commands[..|commands| - 1], k, version, draft)
  {
    assert commands[..|commands| - 1][..k] == commands[..k];
  }

  lemma KeepsDraftStep(commands: seq<Command>, version: Id, draft: Draft)
    requires commands != [] && KeepsDraft(Run(commands[..|commands| - 1]), version, draft)
    ensures KeepsDraft(Run(commands), version, draft)
  {
    var n := |commands| - 1;
    ReachableItemsHaveVersions(commands[..n]);
    StoredStays(Run(commands[..n]), commands[n], version, draft);
  }

  /** In every later state the version has exactly the items and dependencies of its draft. */
  lemma {:induction false} DraftStays(commands: seq<Command>, k: nat, version: Id, draft: Draft)
    requires DraftedAt(commands, k, version, draft)
    ensures KeepsDraft(Run(commands), version, draft)
    decreases |commands|
  {
    if k == |commands| - 1 {
      DraftedLast(commands, version, draft);
    } else {
      DraftedBefore(commands, k, version, draft);
      DraftStays(commands[..|commands| - 1], k, version, draft);
      KeepsDraftStep(commands, version, draft);
    }
  }

  // ----- what is offered

  predicate Has(s: Planning, item: Id, status: ProgressStatus) {
    item in s.progress && s.progress[item].status == status
  }

  predicate BelongsTo(s: Planning, item: Id, version: Id) {
    item in s.items && s.items[item].version == version
  }

  /** Unstarted, and every prerequisite that the draft named for it is done. */
  ghost predicate MayStart(s: Planning, draft: Draft, item: Id) {
    && Has(s, item, NotStarted)
    && forall h, k :: (h, k) in draft.dependencies && h in draft.ids && k in draft.ids && draft.ids[k] == item ==>
         Has(s, draft.ids[h], Completed)
  }

  /** The first of the version's items, by ordinal and then by identifier, that is in progress,
      or, if none is, that may start. */
  ghost predicate Offers(s: Planning, version: Id, draft: Draft, offered: Option<Id>) {
    if exists i :: BelongsTo(s, i, version) && Has(s, i, InProgress)
    then offered.Some? && IsFirst(s, version, offered.value, set i | i in s.items && Has(s, i, InProgress))
    else match offered
         case Some(item) => && BelongsTo(s, item, version) && MayStart(s, draft, item)
                            && forall i :: BelongsTo(s, i, version) && i != item && MayStart(s, draft, i) ==> Sooner(s, item, i)
         case None => forall i :: BelongsTo(s, i, version) ==> !MayStart(s, draft, i)
  }

  ghost predicate IsFirst(s: Planning, version: Id, item: Id, among: set<Id>) {
    && BelongsTo(s, item, version) && item in among
    && forall i :: i in among && i != item && BelongsTo(s, i, version) ==> Sooner(s, item, i)
  }

  predicate Sooner(s: Planning, i: Id, j: Id) {
    i in s.items && j in s.items
    && (s.items[i].ordinal < s.items[j].ordinal || (s.items[i].ordinal == s.items[j].ordinal && i < j))
  }

  /** A listed row is done exactly if its item's progress says so. */
  lemma DoneIsCompleted(s: Planning, version: Id, rows: seq<Row>, item: Id)
    requires Lists(s, version, rows) && BelongsTo(s, item, version)
    ensures IsDone(rows, item) <==> Has(s, item, Completed)
  {
    if Has(s, item, Completed) {
      assert item in ItemsOf(s.items, version);
      var k :| 0 <= k < |rows| && rows[k].item == item;
      assert rows[k] == Row(item, Completed);
    }
  }

  lemma ReadyIsMayStart(s: Planning, version: Id, rows: seq<Row>, draft: Draft, k: nat)
    requires Lists(s, version, rows) && k < |rows| && StoresDraft(s.items, s.deps, version, draft) && version in s.deps
    requires forall e :: e in s.deps[version] ==> BelongsTo(s, e.0, version)
    ensures rows[k].status == NotStarted && Ready(rows, s.deps[version], rows[k].item) <==> MayStart(s, draft, rows[k].item)
  {
    var item, deps := rows[k].item, s.deps[version];
    if Ready(rows, deps, item) {
      forall h, j | (h, j) in draft.dependencies && h in draft.ids && j in draft.ids && draft.ids[j] == item
        ensures Has(s, draft.ids[h], Completed)
      {
        assert (draft.ids[h], draft.ids[j]) in deps;
        DoneIsCompleted(s, version, rows, draft.ids[h]);
      }
    }
    if MayStart(s, draft, item) {
      forall e | e in deps && e.1 == item ensures IsDone(rows, e.0) {
        var h :| h in draft.ids && draft.ids[h] == e.0;
        var j :| j in draft.ids && draft.ids[j] == e.1;
        assert (draft.ids[h], draft.ids[j]) in deps;
        DoneIsCompleted(s, version, rows, e.0);
      }
    }
  }

  lemma ListedRow(s: Planning, version: Id, rows: seq<Row>, item: Id) returns (k: nat)
    requires Lists(s, version, rows) && BelongsTo(s, item, version) && item in s.progress
    ensures k < |rows| && rows[k] == Row(item, s.progress[item].status)
  {
    assert item in ItemsOf(s.items, version) && HasItem(rows, item);
    k :| 0 <= k < |rows| && rows[k].item == item;
  }

  lemma InProgressOffered(s: Planning, version: Id, rows: seq<Row>, deps: set<Edge>, r: nat, working: Id)
    requires Lists(s, version, rows) && IsNextAction(rows, deps, Some(r)) && BelongsTo(s, working, version) && Has(s, working, InProgress)
    ensures r < |rows| && IsFirst(s, version, rows[r].item, set i | i in s.items && Has(s, i, InProgress))
  {
    var w := ListedRow(s, version, rows, working);
    var item := rows[r].item;
    assert rows[w].status == InProgress;
    forall i | i in s.items && Has(s, i, InProgress) && i != item && BelongsTo(s, i, version) ensures Sooner(s, item, i) {
      var j := ListedRow(s, version, rows, i);
      assert Eligible(rows, deps, j);
      assert Before(s.items, rows[r].item, rows[j].item);
    }
  }

  lemma NothingInProgress(s: Planning, version: Id, rows: seq<Row>)
    requires Lists(s, version, rows) && !exists i :: BelongsTo(s, i, version) && Has(s, i, InProgress)
    ensures forall k :: 0 <= k < |rows| ==> rows[k].status != InProgress
  {
    forall k | 0 <= k < |rows| ensures rows[k].status != InProgress {
      assert BelongsTo(s, rows[k].item, version);
    }
  }

  lemma StartOffered(s: Planning, version: Id, rows: seq<Row>, draft: Draft, r: Option<nat>)
    requires Lists(s, version, rows) && version in s.deps && IsNextAction(rows, s.deps[version], r)
    requires StoresDraft(s.items, s.deps, version, draft) && forall e :: e in s.deps[version] ==> BelongsTo(s, e.0, version)
    requires !exists i :: BelongsTo(s, i, version) && Has(s, i, InProgress)
    ensures r.Some? ==> r.value < |rows|
    ensures Offers(s, version, draft, if r.Some? then Some(rows[r.value].item) else None)
  {
    NothingInProgress(s, version, rows);
    forall k | 0 <= k < |rows| ensures Eligible(rows, s.deps[version], k) <==> MayStart(s, draft, rows[k].item) {
      ReadyIsMayStart(s, version, rows, draft, k);
    }
    forall i | BelongsTo(s, i, version) && MayStart(s, draft, i)
      ensures r.Some? && (i != rows[r.value].item ==> Sooner(s, rows[r.value].item, i))
    {
      var j := ListedRow(s, version, rows, i);
      assert Eligible(rows, s.deps[version], j);
      if r.Some? && i != rows[r.value].item {
        assert Before(s.items, rows[r.value].item, rows[j].item);
      }
    }
  }

  /** In every run the query offers, of an approved version, the first item in progress or else
      the first unstarted one whose prerequisites, as its draft named them, are all done; and
      nothing exactly if there is no such item. */
  lemma OffersByDraft(commands: seq<Command>, version: Id, rows: seq<Row>, r: Option<nat>, k: nat, draft: Draft)
    requires var s := Run(commands);
             && version in s.versions && s.versions[version].status == Approved && Lists(s, version, rows)
             && version in s.deps && IsNextAction(rows, s.deps[version], r)
    requires DraftedAt(commands, k, version, draft)
    ensures r.Some? ==> r.value < |rows|
    ensures Offers(Run(commands), version, draft, if r.Some? then Some(rows[r.value].item) else None)
  {
    var s := Run(commands);
    DraftStays(commands, k, version, draft);
    ReachablePlanningOk(commands);
    assert GraphOk(s.items, version, s.deps[version]);
    if working :| BelongsTo(s, working, version) && Has(s, working, InProgress) {
      var w := ListedRow(s, version, rows, working);
      assert Eligible(rows, s.deps[version], w);
      InProgressOffered(s, version, rows, s.deps[version], r.value, working);
    } else {
      StartOffered(s, version, rows, draft, r);
    }
  }
}
