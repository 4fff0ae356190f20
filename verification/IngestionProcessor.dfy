/** The processor that moves bounded batches from the archive into the memory backend,
    and the worker loop that calls it until nothing is left to do. */
module IngestionProcessor {
  import opened Basics
  import opened IngestionLedger
  import RetryDelay

  /** How the backend answers: readiness, the messages whose retain raises, and
      whether refreshing the derived state succeeds. */
  datatype Backend = Backend(ready: bool, fails: set<MessageId>, refreshes: bool)

  const HEALTHY := Backend(true, {}, true)

  /** No conversation is leased or waiting for a retry. */
  ghost predicate NobodyWaits(states: States) {
    forall c :: c in states ==> states[c].status != Processing && states[c].nextAttempt.None?
  }

  function Dirty(states: States): set<ConversationId> {
    set c | c in states && states[c].dirty.Some?
  }

  /** Nothing is left that a claim at `now` may take. */
  ghost predicate NothingClaimable(archive: seq<Message>, conversations: seq<ConversationId>, states: States,
                                   receipts: Receipts, now: Time)
  {
    forall i :: 0 <= i < |conversations| ==>
      || StateOf(states, conversations[i]).Skips(now)
      || Pending(archive, receipts, conversations[i]) == []
  }

  /** The backend lets every message of the batch through. */
  ghost predicate Accepts(backend: Backend, batch: seq<Message>) {
    forall k :: 0 <= k < |batch| ==> Takes(backend, batch[k])
  }

  predicate Takes(backend: Backend, m: Message) {
    m.content ==> backend.ready && m.id !in backend.fails
  }

  /** Nothing but the state of `c` changed. */
  ghost predicate OnlyAt(before: States, after: States, c: ConversationId) {
    c in after && after == before[c := after[c]]
  }

  lemma OnlyAtTwice(before: States, between: States, after: States, c: ConversationId, s: IngestionState)
    requires OnlyAt(before, between, c) && after == between[c := s]
    ensures OnlyAt(before, after, c)
  {
  }

  /** The messages handled before position `n`. */
  function FirstIds(batch: seq<Message>, n: nat): set<MessageId>
    requires n <= |batch|
  {
    if n == 0 then {} else FirstIds(batch, n - 1) + {batch[n - 1].id}
  }

  lemma FirstIdsOne(batch: seq<Message>, n: nat)
    requires n < |batch|
    ensures FirstIds(batch, n + 1) == FirstIds(batch, n) + {batch[n].id}
  {
  }

  lemma {:induction false} FirstIdsAreIds(batch: seq<Message>, n: nat)
    requires n <= |batch|
    ensures FirstIds(batch, n) <= Ids(batch)
    ensures n == |batch| ==> FirstIds(batch, n) == Ids(batch)
  {
    FirstIdsMembers(batch, n);
    forall id | id in FirstIds(batch, n) ensures id in Ids(batch) {
      var k :| 0 <= k < n && batch[k].id == id;
      assert batch[k] in batch;
    }
    if n == |batch| {
      forall id | id in Ids(batch) ensures id in FirstIds(batch, n) {
        var m :| m in batch && m.id == id;
        var k :| 0 <= k < |batch| && batch[k] == m;
      }
    }
  }

  lemma {:induction false} FirstIdsMembers(batch: seq<Message>, n: nat)
    requires n <= |batch|
    ensures forall id :: id in FirstIds(batch, n) <==> exists k :: 0 <= k < n && batch[k].id == id
  {
    if n > 0 {
      FirstIdsMembers(batch, n - 1);
    }
  }

  /** Which message's retain stops the batch: the first with content that the backend does not take. */
  ghost predicate StopsAt(backend: Backend, batch: seq<Message>, n: nat) {
    && n < |batch| && batch[n].content && (!backend.ready || batch[n].id in backend.fails)
    && forall k :: 0 <= k < n && batch[k].content ==> backend.ready && batch[k].id !in backend.fails
  }

  /** The receipts are those from before and those of the first `n` messages. */
  ghost predicate ReceiptsOfFirst(before: Receipts, after: Receipts, batch: seq<Message>, n: nat) {
    n <= |batch| && forall id :: id in after <==> id in before || exists k :: 0 <= k < n && batch[k].id == id
  }

  /** The dirty marker once the first `n` messages are handled. */
  function Marker(batch: seq<Message>, n: nat, was: Option<MessageId>): Option<MessageId>
    requires n <= |batch|
  {
    if n == 0 then was else if batch[n - 1].content then Some(batch[n - 1].id) else Marker(batch, n - 1, was)
  }

  /** The marker names the last handled message with content. */
  lemma {:induction false} MarkerIsLastContent(batch: seq<Message>, n: nat, was: Option<MessageId>, k: nat)
    requires k < n <= |batch| && batch[k].content && forall j :: k < j < n ==> !batch[j].content
    ensures Marker(batch, n, was) == Some(batch[k].id)
  {
    if k < n - 1 {
      MarkerIsLastContent(batch, n - 1, was, k);
    }
  }

  /** Without content the marker stays. */
  lemma {:induction false} BlanksKeepMarker(batch: seq<Message>, n: nat, was: Option<MessageId>)
    requires n <= |batch| && forall k :: 0 <= k < n ==> !batch[k].content
    ensures Marker(batch, n, was) == was
  {
    if n > 0 {
      BlanksKeepMarker(batch, n - 1, was);
    }
  }

  lemma FirstReceipts(before: Receipts, after: Receipts, batch: seq<Message>, n: nat)
    requires n <= |batch| && after.Keys == before.Keys + FirstIds(batch, n)
    ensures ReceiptsOfFirst(before, after, batch, n)
  {
    FirstIdsMembers(batch, n);
    assert forall id :: id in after <==> id in after.Keys;
  }

  lemma FirstAreReceipted(before: Receipts, after: Receipts, batch: seq<Message>, n: nat)
    requires ReceiptsOfFirst(before, after, batch, n)
    ensures forall k :: 0 <= k < n ==> batch[k].id in after
  {
  }

  lemma ReceiptsOfBatch(before: Receipts, after: Receipts, batch: seq<Message>, n: nat)
    requires ReceiptsOfFirst(before, after, batch, n)
    ensures before.Keys <= after.Keys <= before.Keys + Ids(batch)
    ensures n == |batch| ==> after.Keys == before.Keys + Ids(batch)
  {
    forall id | id in after.Keys ensures id in before.Keys + Ids(batch) {
      if id !in before {
        var k :| 0 <= k < n && batch[k].id == id;
        assert batch[k] in batch;
      }
    }
    if n == |batch| {
      forall id | id in Ids(batch) ensures id in after.Keys {
        var m :| m in batch && m.id == id;
        var k :| 0 <= k < |batch| && batch[k] == m;
      }
    }
  }

  /** What the claim does to the waiting and dirty conversations, whatever it returns. */
  lemma ClaimEffects(archive: seq<Message>, receipts: Receipts, conversations: seq<ConversationId>,
                     before: States, after: States, now: Time, until: Time, limit: nat,
                     r: Option<Batch>, i: nat)
    requires ClaimStopsAt(archive, receipts, conversations, before, after, now, until, limit, r, i)
    ensures Dirty(after) == Dirty(before)
    ensures forall c :: c in after && c in Dirty(before) ==> c in before && after[c].derivedNext == before[c].derivedNext
    ensures NobodyWaits(before) ==>
              forall c :: c in after && !(r.Some? && c == r.value.conversation) ==>
                after[c].status != Processing && after[c].nextAttempt.None?
    ensures r.None? ==> NothingClaimable(archive, conversations, before, receipts, now)
  {
    forall c
      ensures c in before ==> c in after
      ensures c in after ==>
                || (r.Some? && c == r.value.conversation && after[c] == StateOf(before, c).Claimed(until))
                || (c in before && after[c] == before[c])
                || after[c] == StateOf(before, c).Released()
    {
      ClaimLeavesOthers(archive, receipts, conversations, before, after, now, until, limit, r, i, c);
    }
    if r.None? {
      assert forall j :: 0 <= j < |conversations| ==> Passed(archive, receipts, before, after, conversations[j], now);
    }
  }

  lemma {:induction false} IdsCardinality(batch: seq<Message>)
    requires UniqueIds(batch)
    ensures |Ids(batch)| == |batch|
  {
    if batch != [] {
      var n := |batch| - 1;
      IdsCardinality(batch[..n]);
      assert Ids(batch) == Ids(batch[..n]) + {batch[n].id};
      assert batch[n].id !in Ids(batch[..n]);
    }
  }

  /** The unreceipted messages lose exactly what was receipted. */
  lemma UnreceiptedAfter(archive: seq<Message>, receipts: Receipts, receipts': Receipts, ids: set<MessageId>)
    requires receipts'.Keys == receipts.Keys + ids
    ensures Unreceipted(archive, receipts') == Unreceipted(archive, receipts) - ids
  {
    forall id ensures id in Unreceipted(archive, receipts') <==> id in Unreceipted(archive, receipts) - ids {
      assert id in receipts' <==> id in receipts || id in ids;
    }
  }

  lemma PageIsUnreceipted(archive: seq<Message>, receipts: Receipts, c: ConversationId, limit: nat)
    ensures var pending := Pending(archive, receipts, c);
            Ids(pending[..Min(limit, |pending|)]) <= Unreceipted(archive, receipts)
  {
    var pending := Pending(archive, receipts, c);
    forall m | m in pending[..Min(limit, |pending|)] ensures m.id in Unreceipted(archive, receipts) {
      assert m in pending;
    }
  }

  lemma DifferenceOfSubset<T>(all: set<T>, some: set<T>)
    requires some <= all
    ensures |all - some| == |all| - |some|
  {
    assert all == (all - some) + some;
  }

  /** A batch that went through takes exactly its own messages out of the unreceipted
      set: `limit` of them, or all that the conversation had left. */
  lemma BatchShrinksBacklog(archive: seq<Message>, receipts: Receipts, receipts': Receipts, c: ConversationId,
                            limit: nat, batch: seq<Message>)
    requires UniqueIds(archive)
    requires batch == Pending(archive, receipts, c)[..Min(limit, |Pending(archive, receipts, c)|)]
    requires receipts'.Keys == receipts.Keys + Ids(batch)
    ensures Unreceipted(archive, receipts') == Unreceipted(archive, receipts) - Ids(batch)
    ensures |Unreceipted(archive, receipts')|
         == |Unreceipted(archive, receipts)| - Min(limit, |Pending(archive, receipts, c)|)
  {
    PendingIsUnique(archive, receipts, c);
    IdsCardinality(batch);
    UnreceiptedAfter(archive, receipts, receipts', Ids(batch));
    PageIsUnreceipted(archive, receipts, c, limit);
    DifferenceOfSubset(Unreceipted(archive, receipts), Ids(batch));
  }

  class MemoryIngestionProcessor {
    const service: MemoryIngestionStateService
    const batchSize: nat
    const leaseFor: nat
    const retryBase: nat
    const retryMax: nat
    const quotient: nat

    ghost predicate Configured() {
      batchSize > 0 && leaseFor > 0 && 0 < retryBase <= retryMax
      && RetryDelay.Quotient(quotient, retryBase, retryMax)
    }

    constructor (service: MemoryIngestionStateService, batchSize: nat, leaseFor: nat,
                 retryBase: nat, retryMax: nat, quotient: nat)
      requires batchSize > 0 && leaseFor > 0 && 0 < retryBase <= retryMax
      requires RetryDelay.Quotient(quotient, retryBase, retryMax)
      ensures Configured() && this.service == service && this.batchSize == batchSize
    {
      this.service, this.batchSize, this.leaseFor := service, batchSize, leaseFor;
      this.retryBase, this.retryMax, this.quotient := retryBase, retryMax, quotient;
    }

    method MarkBatchFailed(batch: Batch, now: Time)
      requires service.Valid()
      modifies service`states
      ensures service.Valid()
      ensures batch.conversation in old(service.states) ==>
                service.states == old(service.states)[batch.conversation :=
                  old(service.states)[batch.conversation].FailedUntil(
                    now + RetryDelay.Delay(retryBase, retryMax, quotient, batch.attempt))]
    {
      var _ := service.MarkFailed(batch.conversation, now + RetryDelay.Delay(retryBase, retryMax, quotient, batch.attempt));
    }

    /** One message of a leased batch: renew, then ignore it or retain it and receipt it. */
    method ProcessMessage(c: ConversationId, m: Message, now: Time, backend: Backend) returns (ok: bool)
      requires service.Valid() && c in service.states && m in service.archive && m.conversation == c
      modifies service`states, service`receipts
      ensures service.Valid() && c in service.states
      ensures ok <==> old(service.states)[c].status == Processing
                      && Takes(backend, m)
      ensures ok ==> service.receipts == old(service.receipts)[m.id := if m.content then Ingested else IgnoredBlank]
      ensures !ok ==> service.receipts == old(service.receipts)
      ensures service.states == old(service.states)[c := service.states[c]]
      ensures service.states[c].dirty == if ok && m.content then Some(m.id) else old(service.states)[c].dirty
      ensures ok ==> service.states[c].status == Processing
      ensures service.states[c].attempts == old(service.states)[c].attempts
      ensures service.states[c].nextAttempt == old(service.states)[c].nextAttempt
    {
      ok := service.RenewLease(c, now + leaseFor);
      if ok && !m.content {
        ok := service.RecordMessageIgnored(c, m);
      } else if ok {
        ok := backend.ready && m.id !in backend.fails;
        if ok {
          ok := service.RecordMessageSucceeded(c, m);
        }
      }
    }

    /** The batch's messages in order, stopping at the first failure. */
    method ProcessMessages(c: ConversationId, messages: seq<Message>, now: Time, backend: Backend)
      returns (ok: bool, ghost done: nat)
      requires service.Valid() && c in service.states && service.states[c].status == Processing
      requires forall k :: 0 <= k < |messages| ==> messages[k] in service.archive && messages[k].conversation == c
      modifies service`states, service`receipts
      ensures service.Valid() && OnlyAt(old(service.states), service.states, c)
      ensures ok <==> forall k :: 0 <= k < |messages| && messages[k].content ==> backend.ready && messages[k].id !in backend.fails
      ensures done <= |messages| && (ok ==> done == |messages|)
      ensures !ok ==> StopsAt(backend, messages, done)
      ensures ReceiptsOfFirst(old(service.receipts), service.receipts, messages, done)
      ensures service.states[c].dirty == Marker(messages, done, old(service.states)[c].dirty)
      ensures service.states[c].nextAttempt == old(service.states)[c].nextAttempt
    {
      var i := 0;
      ok := true;
      while ok && i < |messages|
        invariant i <= |messages| && service.Valid() && OnlyAt(old(service.states), service.states, c)
        invariant service.states[c].nextAttempt == old(service.states)[c].nextAttempt
        invariant ok ==> service.states[c].status == Processing
        invariant service.receipts.Keys == old(service.receipts).Keys + FirstIds(messages, i)
        invariant service.states[c].dirty == Marker(messages, i, old(service.states)[c].dirty)
        invariant Accepts(backend, messages[..i]) && (!ok ==> i < |messages| && !Takes(backend, messages[i]))
        decreases ok, |messages| - i
      {
        ok := ProcessNext(c, messages, i, now, backend, old(service.states));
        if ok {
          i := i + 1;
        }
      }
      FirstReceipts(old(service.receipts), service.receipts, messages, i);
      done := i;
      assert forall k :: 0 <= k < i ==> messages[..i][k] == messages[k];
    }

    /** The next message of the batch; earlier ones changed only the conversation's own state. */
    method ProcessNext(c: ConversationId, messages: seq<Message>, i: nat, now: Time, backend: Backend, ghost before: States)
      returns (ok: bool)
      requires service.Valid() && c in before && OnlyAt(before, service.states, c)
      requires service.states[c].status == Processing
      requires i < |messages| && messages[i] in service.archive && messages[i].conversation == c
      requires Accepts(backend, messages[..i]) && service.states[c].dirty == Marker(messages, i, before[c].dirty)
      modifies service`states, service`receipts
      ensures service.Valid() && OnlyAt(before, service.states, c)
      ensures ok <==> Takes(backend, messages[i])
      ensures ok ==> service.states[c].status == Processing && Accepts(backend, messages[..i + 1])
      ensures service.states[c].nextAttempt == old(service.states)[c].nextAttempt
      ensures service.states[c].dirty == Marker(messages, if ok then i + 1 else i, before[c].dirty)
      ensures forall ids :: old(service.receipts).Keys == ids + FirstIds(messages, i) ==>
                service.receipts.Keys == ids + FirstIds(messages, if ok then i + 1 else i)
    {
      FirstIdsOne(messages, i);
      ok := ProcessMessage(c, messages[i], now, backend);
      assert ok ==> service.receipts.Keys == old(service.receipts).Keys + {messages[i].id};
    }

    /** The whole batch, then the finish transaction or the failure transaction. A failed batch
        keeps the receipts of the messages before the one that failed. */
    method ProcessBatch(batch: Batch, now: Time, backend: Backend) returns (ok: bool, ghost done: nat)
      requires service.Valid() && batch.messages != []
      requires batch.conversation in service.states
      requires service.states[batch.conversation].status == Processing
      requires forall k :: 0 <= k < |batch.messages| ==>
                 batch.messages[k] in service.archive && batch.messages[k].conversation == batch.conversation
      modifies service`states, service`receipts
      ensures service.Valid()
      ensures ok <==> forall k :: 0 <= k < |batch.messages| && batch.messages[k].content ==>
                backend.ready && batch.messages[k].id !in backend.fails
      ensures done <= |batch.messages| && if ok then done == |batch.messages| else StopsAt(backend, batch.messages, done)
      ensures ReceiptsOfFirst(old(service.receipts), service.receipts, batch.messages, done)
      ensures OnlyAt(old(service.states), service.states, batch.conversation)
      ensures service.states[batch.conversation].dirty == Marker(batch.messages, done, old(service.states)[batch.conversation].dirty)
      ensures var s := service.states[batch.conversation];
              if ok then s.status == Idle && s.nextAttempt.None? && s.attempts == 0
                         && s.cursor == Some(batch.messages[|batch.messages| - 1].id)
              else s.status == Failed && s.lease.None?
                   && s.nextAttempt == Some(now + RetryDelay.Delay(retryBase, retryMax, quotient, batch.attempt))
    {
      ok, done := ProcessMessages(batch.conversation, batch.messages, now, backend);
      ghost var between, c := service.states, batch.conversation;
      if !ok {
        MarkBatchFailed(batch, now);
        OnlyAtTwice(old(service.states), between, service.states, c, service.states[c]);
        return false, done;
      }
      FirstAreReceipted(old(service.receipts), service.receipts, batch.messages, done);
      Finish(batch);
      OnlyAtTwice(old(service.states), between, service.states, c, service.states[c]);
    }

    /** The finish transaction: everything in the batch is receipted already. */
    method Finish(batch: Batch)
      requires service.Valid() && batch.messages != [] && batch.conversation in service.states
      requires forall k :: 0 <= k < |batch.messages| ==> batch.messages[k].id in service.receipts
      requires forall k :: 0 <= k < |batch.messages| ==>
                 batch.messages[k] in service.archive && batch.messages[k].conversation == batch.conversation
      modifies service`states, service`receipts
      ensures service.Valid() && service.receipts == old(service.receipts)
      ensures service.states == old(service.states)[batch.conversation := old(service.states)[batch.conversation].(status := Idle,
                attempts := 0, nextAttempt := None, lease := None, cursor := Some(batch.messages[|batch.messages| - 1].id))]
    {
      var _ := service.MarkSucceeded(batch.conversation, batch.messages);
    }

    /** Refreshes one dirty conversation that is due. */
    method ReconcileOne(now: Time, backend: Backend) returns (busy: bool)
      requires service.Valid()
      modifies service`states
      ensures service.Valid()
      ensures !busy ==> service.states == old(service.states)
                        && forall c :: c in service.states && service.states[c].dirty.Some? ==>
                             service.states[c].derivedNext.Some? && service.states[c].derivedNext.value > now
      ensures busy ==> exists c :: c in old(service.states) && Reconciled(c, now, backend)
      ensures service.states.Keys == old(service.states).Keys
      ensures forall c :: c in service.states ==>
                && service.states[c].status == old(service.states)[c].status
                && service.states[c].nextAttempt == old(service.states)[c].nextAttempt
      ensures busy && backend.refreshes ==> Dirty(service.states) < Dirty(old(service.states))
      ensures !backend.refreshes ==> Dirty(service.states) == Dirty(old(service.states))
    {
      var claim := service.ClaimDerivedRefresh(now);
      if claim.None? {
        return false;
      }
      var (c, through) := claim.value;
      if backend.refreshes {
        var _ := service.MarkDerivedSucceeded(c, through);
        assert c in Dirty(old(service.states)) && c !in Dirty(service.states);
      } else {
        var attempt := service.states[c].derivedAttempts;
        var _ := service.MarkDerivedFailed(c, now + RetryDelay.Delay(retryBase, retryMax, quotient, attempt));
      }
      assert Reconciled(c, now, backend);
      return true;
    }

    /** Conversation `c` was dirty and due, and only it changed: its marker is cleared, or the
        next attempt put off by the back-off of this one. */
    twostate predicate Reconciled(c: ConversationId, now: Time, backend: Backend)
      reads service
      requires c in old(service.states)
    {
      var was := old(service.states)[c];
      && was.dirty.Some? && (was.derivedNext.None? || was.derivedNext.value <= now)
      && service.states == old(service.states)[c :=
           if backend.refreshes then was.(dirty := None, derivedAttempts := 0, derivedNext := None)
           else was.(derivedAttempts := was.derivedAttempts + 1,
                     derivedNext := Some(now + RetryDelay.Delay(retryBase, retryMax, quotient, was.derivedAttempts + 1)))]
    }

    /** A claimed batch, followed by one derived refresh when the batch succeeded. */
    method FinishTurn(batch: Batch, now: Time, backend: Backend)
      requires service.Valid() && batch.messages != []
      requires batch.conversation in service.states
      requires service.states[batch.conversation].status == Processing
      requires forall k :: 0 <= k < |batch.messages| ==>
                 batch.messages[k] in service.archive && batch.messages[k].conversation == batch.conversation
      modifies service`states, service`receipts
      ensures service.Valid()
      ensures old(service.receipts).Keys <= service.receipts.Keys <= old(service.receipts).Keys + Ids(batch.messages)
      ensures Accepts(backend, batch.messages) ==> service.receipts.Keys == old(service.receipts).Keys + Ids(batch.messages)
      ensures service.states.Keys == old(service.states).Keys
      ensures forall c :: c in service.states && c != batch.conversation ==>
                && service.states[c].status == old(service.states)[c].status
                && service.states[c].nextAttempt == old(service.states)[c].nextAttempt
      ensures Accepts(backend, batch.messages) ==>
                && service.states[batch.conversation].status == Idle
                && service.states[batch.conversation].nextAttempt.None?
    {
      ghost var done;
      var ok;
      ok, done := ProcessBatch(batch, now, backend);
      ReceiptsOfBatch(old(service.receipts), service.receipts, batch.messages, done);
      assert ok <==> Accepts(backend, batch.messages);
      if ok {
        var _ := ReconcileOne(now, backend);
      }
    }

    /** The claim transaction, described by what the rest of the turn needs. */
    method Claim(now: Time) returns (r: Option<Batch>)
      requires Configured() && service.Valid()
      modifies service`states
      ensures service.Valid() && Dirty(service.states) == Dirty(old(service.states))
      ensures r.None? ==> NothingClaimable(service.archive, service.conversations, old(service.states), service.receipts, now)
      ensures old(NobodyWaits(service.states)) ==>
                forall c :: c in service.states && !(r.Some? && c == r.value.conversation) ==>
                  service.states[c].status != Processing && service.states[c].nextAttempt.None?
      ensures r.Some? ==> && Taken(r.value, now) && r.value.messages != [] && r.value.conversation in service.states
                          && service.states[r.value.conversation].status == Processing
      ensures r.Some? ==> forall k :: 0 <= k < |r.value.messages| ==>
                && r.value.messages[k] in service.archive
                && r.value.messages[k].conversation == r.value.conversation
    {
      r := service.ClaimNextBatch(batchSize, leaseFor, now);
      ghost var i: nat :| ClaimStopsAt(service.archive, service.receipts, service.conversations, old(service.states),
                                       service.states, now, now + leaseFor, batchSize, r, i);
      ClaimEffects(service.archive, service.receipts, service.conversations, old(service.states), service.states,
                   now, now + leaseFor, batchSize, r, i);
      if r.Some? {
        assert forall k :: 0 <= k < |r.value.messages| ==>
            r.value.messages[k] in Pending(service.archive, service.receipts, r.value.conversation);
      }
    }

    /** One turn of the worker: a batch if one can be claimed, else one derived refresh. */
    method ProcessOnce(now: Time, backend: Backend) returns (busy: bool, ghost batch: Option<Batch>)
      requires Configured() && service.Valid()
      modifies service`states, service`receipts
      ensures service.Valid()
      ensures batch.None? ==>
                && service.receipts == old(service.receipts)
                && NothingClaimable(service.archive, service.conversations, old(service.states), service.receipts, now)
                && (!busy ==> forall c :: c in service.states ==> !service.states[c].DerivedDue(now))
                && (busy && backend.refreshes ==> Dirty(service.states) < Dirty(old(service.states)))
      ensures batch.Some? ==> busy && Taken(batch.value, now)
      ensures batch.Some? ==> old(service.receipts).Keys <= service.receipts.Keys
                              <= old(service.receipts).Keys + Ids(batch.value.messages)
      ensures batch.Some? && Accepts(backend, batch.value.messages) ==>
                service.receipts.Keys == old(service.receipts).Keys + Ids(batch.value.messages)
      ensures backend == HEALTHY && old(NobodyWaits(service.states)) ==> NobodyWaits(service.states)
    {
      var claimed := Claim(now);
      batch := claimed;
      if claimed.None? {
        busy := ReconcileOne(now, backend);
        return;
      }
      FinishTurn(claimed.value, now, backend);
      return true, batch;
    }

    /** The batch is the first unreceipted page of some conversation the claim may take. */
    twostate predicate Taken(batch: Batch, now: Time)
      reads service
    {
      var pending := Pending(service.archive, old(service.receipts), batch.conversation);
      && batch.conversation in service.conversations
      && !StateOf(old(service.states), batch.conversation).Skips(now)
      && pending != [] && batch.messages == pending[..Min(batchSize, |pending|)]
    }

    /** A turn over a backend that does not fail shrinks the backlog, or keeps it and
        shrinks the set of dirty conversations, or finds nothing left to do. */
    method HealthyTurn(now: Time) returns (busy: bool)
      requires Configured() && service.Valid()
      modifies service`states, service`receipts
      ensures service.Valid()
      ensures var before, after := |Unreceipted(service.archive, old(service.receipts))|,
                                   |Unreceipted(service.archive, service.receipts)|;
              busy ==> after < before || (after == before && |Dirty(service.states)| < |Dirty(old(service.states))|)
      ensures old(NobodyWaits(service.states)) ==> NobodyWaits(service.states)
      ensures !busy ==> forall c :: c in service.states ==> !service.states[c].DerivedDue(now)
      ensures !busy && old(NobodyWaits(service.states)) ==> forall m :: m in service.archive ==> m.id in service.receipts
    {
      ghost var batch;
      busy, batch := ProcessOnce(now, HEALTHY);
      if batch.Some? {
        BatchShrinksBacklog(service.archive, old(service.receipts), service.receipts, batch.value.conversation,
                            batchSize, batch.value.messages);
      } else {
        SmallerDirty(old(service.states), service.states);
        if old(NobodyWaits(service.states)) {
          DrainedWhenIdle(service.archive, service.conversations, old(service.states), service.receipts, now);
        }
      }
    }

    /** The worker's inner loop over a backend that never fails: it ends, and when
        nobody was leased or waiting it leaves every archived message receipted. */
    method RunUntilIdle(clock: nat -> Time) returns (turns: nat)
      requires Configured() && service.Valid()
      modifies service`states, service`receipts
      ensures service.Valid() && turns > 0
      ensures forall c :: c in service.states ==> !service.states[c].DerivedDue(clock(turns - 1))
      ensures old(NobodyWaits(service.states)) ==>
                NobodyWaits(service.states) && forall m :: m in service.archive ==> m.id in service.receipts
    {
      var busy := true;
      turns := 0;
      while busy
        invariant service.Valid() && (!busy ==> turns > 0)
        invariant old(NobodyWaits(service.states)) ==> NobodyWaits(service.states)
        invariant !busy ==> forall c :: c in service.states ==> !service.states[c].DerivedDue(clock(turns - 1))
        invariant !busy && old(NobodyWaits(service.states)) ==> forall m :: m in service.archive ==> m.id in service.receipts
        decreases busy, |Unreceipted(service.archive, service.receipts)|, |Dirty(service.states)|
      {
        busy := HealthyTurn(clock(turns));
        turns := turns + 1;
      }
    }
  }

  lemma SmallerDirty(before: States, after: States)
    ensures Dirty(after) < Dirty(before) ==> |Dirty(after)| < |Dirty(before)|
  {
    if Dirty(after) < Dirty(before) {
      var c :| c in Dirty(before) && c !in Dirty(after);
      assert |Dirty(before)| == |Dirty(after)| + |Dirty(before) - Dirty(after)|;
      assert c in Dirty(before) - Dirty(after);
    }
  }

  /** If nobody waits and nothing can be claimed, nothing is unreceipted. */
  lemma DrainedWhenIdle(archive: seq<Message>, conversations: seq<ConversationId>, states: States,
                        receipts: Receipts, now: Time)
    requires NobodyWaits(states) && forall m :: m in archive ==> m.conversation in conversations
    ensures NothingClaimable(archive, conversations, states, receipts, now) ==>
              forall m :: m in archive ==> m.id in receipts
  {
    if NothingClaimable(archive, conversations, states, receipts, now) {
      forall m | m in archive ensures m.id in receipts {
        var i :| 0 <= i < |conversations| && conversations[i] == m.conversation;
        assert !StateOf(states, conversations[i]).Skips(now);
        assert m in Pending(archive, receipts, conversations[i]) || m.id in receipts;
      }
    }
  }
}
