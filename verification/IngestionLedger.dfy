/** The durable ingestion ledger: per-conversation leases and per-message receipts,
    and the processor that drains the archive through it. */
module IngestionLedger {
  import opened Basics

  type MessageId = nat
  type ConversationId = nat

  /** `content` says whether anything is left of the text once whitespace is stripped. */
  datatype Message = Message(id: MessageId, conversation: ConversationId, content: bool)

  datatype Status = Idle | Processing | Failed

  datatype Outcome = Ingested | IgnoredBlank

  datatype IngestionState = IngestionState(
    status: Status, attempts: nat, nextAttempt: Option<Time>, lease: Option<Time>,
    cursor: Option<MessageId>, dirty: Option<MessageId>, derivedAttempts: nat, derivedNext: Option<Time>)
  {
    /** The claim passes over a conversation that is leased or waiting for a retry. */
    predicate Skips(now: Time) {
      || (status == Processing && lease.Some? && lease.value > now)
      || (nextAttempt.Some? && nextAttempt.value > now)
    }

    function Released(): IngestionState {
      this.(status := Idle, attempts := 0, nextAttempt := None, lease := None)
    }

    function Claimed(until: Time): IngestionState {
      this.(status := Processing, attempts := attempts + 1, lease := Some(until), nextAttempt := None)
    }

    function FailedUntil(retryAt: Time): IngestionState {
      this.(status := Failed, nextAttempt := Some(retryAt), lease := None)
    }

    predicate DerivedDue(now: Time) {
      dirty.Some? && (derivedNext.Some? ==> derivedNext.value <= now)
    }
  }

  const FRESH := IngestionState(Idle, 0, None, None, None, None, 0, None)

  type States = map<ConversationId, IngestionState>

  type Receipts = map<MessageId, Outcome>

  datatype Batch = Batch(conversation: ConversationId, attempt: nat, messages: seq<Message>)

  function StateOf(states: States, c: ConversationId): IngestionState {
    if c in states then states[c] else FRESH
  }

  /** The conversation's messages without a receipt, in archive order. */
  function Pending(archive: seq<Message>, receipts: Receipts, c: ConversationId): (p: seq<Message>)
    ensures forall m :: m in p <==> m in archive && m.conversation == c && m.id !in receipts
  {
    if archive == [] then []
    else
      var rest := Pending(archive[1..], receipts, c);
      if archive[0].conversation == c && archive[0].id !in receipts then [archive[0]] + rest else rest
  }


  /** What a claim does to a conversation it does not lease. */
  ghost predicate Passed(archive: seq<Message>, receipts: Receipts, before: States, after: States,
                         c: ConversationId, now: Time)
  {
    && c in after
    && if c in before && before[c].Skips(now) then after[c] == before[c]
       else Pending(archive, receipts, c) == [] && after[c] == StateOf(before, c).Released()
  }

  ghost predicate Same(before: States, after: States, c: ConversationId) {
    (c in after <==> c in before) && (c in before ==> after[c] == before[c])
  }

  /** The claim's whole effect: it walks the conversations in order and leases the
      first one that is neither skipped nor drained. */
  ghost predicate ClaimOutcome(archive: seq<Message>, receipts: Receipts, conversations: seq<ConversationId>,
                               before: States, after: States, now: Time, until: Time, limit: nat,
                               r: Option<Batch>)
  {
    exists i: nat :: ClaimStopsAt(archive, receipts, conversations, before, after, now, until, limit, r, i)
  }

  ghost predicate ClaimStopsAt(archive: seq<Message>, receipts: Receipts, conversations: seq<ConversationId>,
                               before: States, after: States, now: Time, until: Time, limit: nat,
                               r: Option<Batch>, i: nat)
  {
    && i <= |conversations|
    && (forall j :: 0 <= j < i ==> Passed(archive, receipts, before, after, conversations[j], now))
    && (forall j :: i < j < |conversations| ==> Same(before, after, conversations[j]))
    && (forall c :: c !in conversations ==> Same(before, after, c))
    && (r.None? <==> i == |conversations|)
    && (r.Some? ==> Leased(archive, receipts, before, after, now, until, limit, conversations[i], r.value))
  }

  /** The first `limit` unreceipted messages of `c` are leased until `until`. */
  ghost predicate Leased(archive: seq<Message>, receipts: Receipts, before: States, after: States,
                         now: Time, until: Time, limit: nat, c: ConversationId, batch: Batch)
  {
    var pending := Pending(archive, receipts, c);
    && !StateOf(before, c).Skips(now) && pending != []
    && c in after && after[c] == StateOf(before, c).Claimed(until)
    && batch == Batch(c, after[c].attempts, pending[..Min(limit, |pending|)])
  }

  /** The first `i` conversations were passed and the others are as they were. */
  ghost predicate Walked(archive: seq<Message>, receipts: Receipts, conversations: seq<ConversationId>,
                         before: States, after: States, now: Time, i: nat)
  {
    && i <= |conversations|
    && (forall j :: 0 <= j < i ==> Passed(archive, receipts, before, after, conversations[j], now))
    && (forall j :: i <= j < |conversations| ==> Same(before, after, conversations[j]))
    && (forall c :: c !in conversations ==> Same(before, after, c))
  }

  /** A step that writes only conversation `i` leaves the rest of the walk as it was. */
  lemma StepKeepsRest(archive: seq<Message>, receipts: Receipts, conversations: seq<ConversationId>,
                      before: States, middle: States, after: States, now: Time, i: nat)
    requires forall j, k :: 0 <= j < k < |conversations| ==> conversations[j] != conversations[k]
    requires i < |conversations|
    requires Walked(archive, receipts, conversations, before, middle, now, i)
    requires conversations[i] in after && after == middle[conversations[i] := after[conversations[i]]]
    ensures forall j :: 0 <= j < i ==> Passed(archive, receipts, before, after, conversations[j], now)
    ensures forall j :: i < j < |conversations| ==> Same(before, after, conversations[j])
    ensures forall c :: c !in conversations ==> Same(before, after, c)
  {
    forall j | 0 <= j < i ensures Passed(archive, receipts, before, after, conversations[j], now) {
      assert Passed(archive, receipts, before, middle, conversations[j], now);
    }
    forall j | i < j < |conversations| ensures Same(before, after, conversations[j]) {
      assert Same(before, middle, conversations[j]);
    }
    forall c | c !in conversations ensures Same(before, after, c) {
      assert Same(before, middle, c);
    }
  }

  /** A conversation the claim did not lease is either untouched or merely released. */
  lemma ClaimLeavesOthers(archive: seq<Message>, receipts: Receipts, conversations: seq<ConversationId>,
                          before: States, after: States, now: Time, until: Time, limit: nat,
                          r: Option<Batch>, i: nat, c: ConversationId)
    requires ClaimStopsAt(archive, receipts, conversations, before, after, now, until, limit, r, i)
    ensures c in before ==> c in after
    ensures c in after ==>
              || (r.Some? && c == r.value.conversation && after[c] == StateOf(before, c).Claimed(until))
              || (c in before && after[c] == before[c])
              || after[c] == StateOf(before, c).Released()
  {
    if c in conversations {
      var j :| 0 <= j < |conversations| && conversations[j] == c;
      if j < i {
        assert Passed(archive, receipts, before, after, conversations[j], now);
      } else if j > i {
        assert Same(before, after, conversations[j]);
      }
    } else {
      assert Same(before, after, c);
    }
  }

  /** A claim takes no conversation that is leased past `now` or waits for a retry after it, and
      it comes back empty only if every conversation with work left is leased or waits. */
  lemma ClaimRespectsLeases(archive: seq<Message>, receipts: Receipts, conversations: seq<ConversationId>,
                            before: States, after: States, now: Time, until: Time, limit: nat,
                            r: Option<Batch>, i: nat)
    requires ClaimStopsAt(archive, receipts, conversations, before, after, now, until, limit, r, i)
    ensures r.Some? ==>
              && r.value.conversation in conversations
              && var c := r.value.conversation;
                 c in before ==>
                   && !(before[c].status == Processing && before[c].lease.Some? && before[c].lease.value > now)
                   && !(before[c].nextAttempt.Some? && before[c].nextAttempt.value > now)
    ensures forall m, j :: m in archive && m.id !in receipts && 0 <= j < |conversations| && conversations[j] == m.conversation
                           && (r.None? || j < i) ==>
              && m.conversation in before
              && var s := before[m.conversation];
                 || (s.status == Processing && s.lease.Some? && s.lease.value > now)
                 || (s.nextAttempt.Some? && s.nextAttempt.value > now)
  {
    forall m, j | m in archive && m.id !in receipts && 0 <= j < |conversations| && conversations[j] == m.conversation
                  && (r.None? || j < i)
      ensures m.conversation in before && before[m.conversation].Skips(now)
    {
      assert Passed(archive, receipts, before, after, conversations[j], now);
      assert m in Pending(archive, receipts, m.conversation);
    }
  }

  /** What a claim writes: the lease, and the idle state of drained conversations it passes. */
  lemma ClaimWrites(archive: seq<Message>, receipts: Receipts, conversations: seq<ConversationId>,
                    before: States, after: States, now: Time, until: Time, limit: nat,
                    r: Option<Batch>, i: nat, c: ConversationId)
    requires ClaimStopsAt(archive, receipts, conversations, before, after, now, until, limit, r, i) && c in after
    ensures r.Some? && c == r.value.conversation ==>
              && after[c].status == Processing && after[c].lease == Some(until) && after[c].nextAttempt.None?
              && r.value.attempt == after[c].attempts == (if c in before then before[c].attempts else 0) + 1
              && after[c].dirty == (if c in before then before[c].dirty else None)
              && after[c].cursor == (if c in before then before[c].cursor else None)
    ensures !(r.Some? && c == r.value.conversation) && !(c in before && after[c] == before[c]) ==>
              && after[c].status == Idle && after[c].attempts == 0 && after[c].nextAttempt.None? && after[c].lease.None?
              && after[c].dirty == (if c in before then before[c].dirty else None)
              && after[c].cursor == (if c in before then before[c].cursor else None)
              && forall m :: m in archive && m.conversation == c ==> m.id in receipts
  {
    PassedOrSame(archive, receipts, conversations, before, after, now, until, limit, r, i, c);
    forall m | m in archive && m.conversation == c && m !in Pending(archive, receipts, c) ensures m.id in receipts {}
  }

  lemma PassedOrSame(archive: seq<Message>, receipts: Receipts, conversations: seq<ConversationId>,
                     before: States, after: States, now: Time, until: Time, limit: nat,
                     r: Option<Batch>, i: nat, c: ConversationId)
    requires ClaimStopsAt(archive, receipts, conversations, before, after, now, until, limit, r, i)
    ensures || Same(before, after, c) || (r.Some? && c == r.value.conversation)
            || Passed(archive, receipts, before, after, c, now)
  {
    if c in conversations {
      var j :| 0 <= j < |conversations| && conversations[j] == c;
      if j < i {
        assert Passed(archive, receipts, before, after, conversations[j], now);
      } else if j > i {
        assert Same(before, after, conversations[j]);
      }
    }
  }

  /** The batch of a claim: unreceipted messages of its conversation, `limit` of them unless
      they are all there are. */
  lemma ClaimedPage(archive: seq<Message>, receipts: Receipts, conversations: seq<ConversationId>,
                    before: States, after: States, now: Time, until: Time, limit: nat,
                    r: Option<Batch>, i: nat)
    requires ClaimStopsAt(archive, receipts, conversations, before, after, now, until, limit, r, i) && r.Some? && limit > 0
    ensures var page := r.value.messages;
            && 0 < |page| <= limit
            && (forall m :: m in page ==> m in archive && m.conversation == r.value.conversation && m.id !in receipts)
            && (|page| < limit ==> forall m :: m in archive && m.conversation == r.value.conversation && m.id !in receipts ==> m in page)
  {
    var pending := Pending(archive, receipts, r.value.conversation);
    var page := r.value.messages;
    assert forall k :: 0 <= k < |page| ==> page[k] == pending[k];
    assert |page| < limit ==> page == pending;
  }

  /** The page lists, in archive order, the rows at the given positions: the unreceipted
      messages of the conversation. */
  ghost predicate ListsPending(archive: seq<Message>, receipts: Receipts, c: ConversationId, page: seq<Message>, at: seq<nat>) {
    && |page| == |at| && (forall i, j :: 0 <= i < j < |at| ==> at[i] < at[j])
    && (forall i :: 0 <= i < |at| ==> at[i] < |archive| && page[i] == archive[at[i]])
    && (forall k :: 0 <= k < |archive| ==> (k in at <==> archive[k].conversation == c && archive[k].id !in receipts))
  }

  lemma {:induction false} PendingConcat(a: seq<Message>, b: seq<Message>, receipts: Receipts, c: ConversationId)
    ensures Pending(a + b, receipts, c) == Pending(a, receipts, c) + Pending(b, receipts, c)
  {
    if a == [] {
      assert a + b == b;
    } else {
      assert (a + b)[1..] == a[1..] + b;
      PendingConcat(a[1..], b, receipts, c);
    }
  }

  lemma PendingOfOne(m: Message, receipts: Receipts, c: ConversationId)
    ensures Pending([m], receipts, c) == if m.conversation == c && m.id !in receipts then [m] else []
  {
    assert [m][1..] == [];
  }

  lemma OneMorePending(archive: seq<Message>, m: Message, receipts: Receipts, c: ConversationId, page: seq<Message>, at: seq<nat>)
    requires ListsPending(archive, receipts, c, page, at)
    ensures if m.conversation == c && m.id !in receipts
            then ListsPending(archive + [m], receipts, c, page + [m], at + [|archive|])
            else ListsPending(archive + [m], receipts, c, page, at)
  {
    var longer := archive + [m];
    assert forall k :: 0 <= k < |archive| ==> longer[k] == archive[k];
    assert |archive| in at + [|archive|];
    assert forall k :: k in at + [|archive|] <==> k in at || k == |archive|;
  }

  lemma PendingStep(most: seq<Message>, m: Message, archive: seq<Message>, receipts: Receipts, c: ConversationId,
                    page: seq<Message>, longer: seq<Message>, at: seq<nat>) returns (more: seq<nat>)
    requires ListsPending(most, receipts, c, page, at) && archive == most + [m]
    requires longer == page + if m.conversation == c && m.id !in receipts then [m] else []
    ensures ListsPending(archive, receipts, c, longer, more)
  {
    OneMorePending(most, m, receipts, c, page, at);
    if m.conversation == c && m.id !in receipts {
      more := at + [|most|];
    } else {
      assert longer == page;
      more := at;
    }
  }

  /** Pending lists the unreceipted messages of the conversation in archive order. */
  lemma {:induction false} PendingIsArchiveOrder(archive: seq<Message>, receipts: Receipts, c: ConversationId) returns (at: seq<nat>)
    ensures ListsPending(archive, receipts, c, Pending(archive, receipts, c), at)
  {
    if archive == [] {
      at := [];
    } else {
      var most := archive[..|archive| - 1];
      at := PendingIsArchiveOrder(most, receipts, c);
      LastPending(archive, receipts, c);
      at := PendingStep(most, archive[|archive| - 1], archive, receipts, c, Pending(most, receipts, c),
                        Pending(archive, receipts, c), at);
    }
  }

  lemma LastPending(archive: seq<Message>, receipts: Receipts, c: ConversationId)
    requires archive != []
    ensures var most, m := archive[..|archive| - 1], archive[|archive| - 1];
            && archive == most + [m]
            && Pending(archive, receipts, c) == Pending(most, receipts, c)
                                                + if m.conversation == c && m.id !in receipts then [m] else []
  {
    var most, m := archive[..|archive| - 1], archive[|archive| - 1];
    assert archive == most + [m];
    PendingConcat(most, [m], receipts, c);
    PendingOfOne(m, receipts, c);
  }

  /** `_record_receipts` with the default outcome: existing receipts are left alone. */
  function RecordAll(receipts: Receipts, batch: seq<Message>): (r: Receipts)
    ensures forall id :: id in receipts ==> id in r && r[id] == receipts[id]
    ensures forall m :: m in batch ==> m.id in r
    ensures (forall m :: m in batch ==> m.id in receipts) ==> r == receipts
  {
    if batch == [] then receipts
    else
      var most := RecordAll(receipts, batch[..|batch| - 1]);
      var id := batch[|batch| - 1].id;
      if id in most then most else most[id := Ingested]
  }

  /** What is added: an INGESTED receipt for each message of the batch that had none. */
  lemma {:induction false} RecordAllAdds(receipts: Receipts, batch: seq<Message>, id: MessageId)
    ensures id in RecordAll(receipts, batch) <==> id in receipts || exists i :: 0 <= i < |batch| && batch[i].id == id
    ensures id in RecordAll(receipts, batch) && id !in receipts ==> RecordAll(receipts, batch)[id] == Ingested
  {
    if batch != [] {
      RecordAllAdds(receipts, batch[..|batch| - 1], id);
      assert batch == batch[..|batch| - 1] + [batch[|batch| - 1]];
    }
  }

  ghost predicate UniqueIds(archive: seq<Message>) {
    forall i, j :: 0 <= i < j < |archive| ==> archive[i].id != archive[j].id
  }

  lemma {:induction false} PendingIsUnique(archive: seq<Message>, receipts: Receipts, c: ConversationId)
    requires UniqueIds(archive)
    ensures UniqueIds(Pending(archive, receipts, c))
  {
    if archive != [] {
      PendingIsUnique(archive[1..], receipts, c);
      forall m | m in archive[1..] ensures m.id != archive[0].id {
        var k :| 0 <= k < |archive[1..]| && archive[1..][k] == m;
        assert archive[k + 1] == m;
      }
    }
  }

  ghost predicate Receipted(archive: seq<Message>, receipts: Receipts, c: ConversationId, id: MessageId) {
    id in receipts && exists m :: m in archive && m.id == id && m.conversation == c
  }

  /** Leased exactly while processing; the cursor and the dirty marker name receipted messages. */
  ghost predicate StateOk(archive: seq<Message>, receipts: Receipts, c: ConversationId, s: IngestionState) {
    && (s.status == Processing <==> s.lease.Some?)
    && (s.cursor.Some? ==> Receipted(archive, receipts, c, s.cursor.value))
    && (s.dirty.Some? ==> Receipted(archive, receipts, c, s.dirty.value) && receipts[s.dirty.value] == Ingested)
  }

  /** Each receipt belongs to an archived message, and says INGESTED exactly for content. */
  ghost predicate ReceiptsOk(archive: seq<Message>, receipts: Receipts) {
    && UniqueIds(archive)
    && (forall id :: id in receipts ==> exists m :: m in archive && m.id == id)
    && (forall m :: m in archive && m.id in receipts ==> (receipts[m.id] == Ingested <==> m.content))
  }

  ghost predicate LedgerOk(archive: seq<Message>, states: States, receipts: Receipts) {
    && ReceiptsOk(archive, receipts)
    && forall c :: c in states ==> StateOk(archive, receipts, c, states[c])
  }

  function Unreceipted(archive: seq<Message>, receipts: Receipts): set<MessageId> {
    set m | m in archive && m.id !in receipts :: m.id
  }

  function Ids(batch: seq<Message>): set<MessageId> {
    set m | m in batch :: m.id
  }

  class MemoryIngestionStateService {
    /** The archive and its conversations as one catch-up finds them. */
    const archive: seq<Message>
    const conversations: seq<ConversationId>
    var states: States
    var receipts: Receipts

    ghost predicate Valid()
      reads this
    {
      && LedgerOk(archive, states, receipts)
      && (forall i, j :: 0 <= i < j < |conversations| ==> conversations[i] != conversations[j])
      && (forall m :: m in archive ==> m.conversation in conversations)
    }

    constructor (archive: seq<Message>, conversations: seq<ConversationId>)
      requires UniqueIds(archive)
      requires forall i, j :: 0 <= i < j < |conversations| ==> conversations[i] != conversations[j]
      requires forall m :: m in archive ==> m.conversation in conversations
      ensures Valid() && states == map[] && receipts == map[]
      ensures this.archive == archive && this.conversations == conversations
    {
      this.archive, this.conversations, states, receipts := archive, conversations, map[], map[];
    }

    /** Passes over one conversation or leases its next batch. */
    method VisitConversation(c: ConversationId, limit: nat, until: Time, now: Time) returns (r: Option<Batch>)
      requires Valid() && limit > 0
      modifies this`states
      ensures Valid() && c in states
      ensures states == old(states)[c := states[c]]
      ensures r.None? ==> Passed(archive, receipts, old(states), states, c, now)
      ensures r.Some? ==> Leased(archive, receipts, old(states), states, now, until, limit, c, r.value)
    {
      var state := StateOf(states, c);
      if state.Skips(now) {
        return None;
      }
      var pending := Pending(archive, receipts, c);
      if pending == [] {
        states := states[c := state.Released()];
        return None;
      }
      states := states[c := state.Claimed(until)];
      return Some(Batch(c, state.attempts + 1, pending[..Min(limit, |pending|)]));
    }

    /** Leases the next batch of unreceipted messages. */
    method ClaimNextBatch(limit: nat, leaseFor: nat, now: Time) returns (r: Option<Batch>)
      requires Valid() && limit > 0 && leaseFor > 0
      modifies this`states
      ensures Valid()
      ensures ClaimOutcome(archive, receipts, conversations, old(states), states, now, now + leaseFor, limit, r)
      ensures r.Some? ==> var c := r.value.conversation;
                && (c in old(states) ==>
                      && !(old(states)[c].status == Processing && old(states)[c].lease.Some? && old(states)[c].lease.value > now)
                      && !(old(states)[c].nextAttempt.Some? && old(states)[c].nextAttempt.value > now))
                && c in states && states[c].status == Processing && states[c].lease == Some(now + leaseFor)
      ensures r.None? ==> forall m :: m in archive && m.id !in receipts ==>
                && m.conversation in old(states)
                && var s := old(states)[m.conversation];
                   || (s.status == Processing && s.lease.Some? && s.lease.value > now)
                   || (s.nextAttempt.Some? && s.nextAttempt.value > now)
    {
      var i := 0;
      while i < |conversations|
        invariant Valid() && Walked(archive, receipts, conversations, old(states), states, now, i)
      {
        ghost var before := states;
        r := VisitConversation(conversations[i], limit, now + leaseFor, now);
        assert Same(old(states), before, conversations[i]);
        StepKeepsRest(archive, receipts, conversations, old(states), before, states, now, i);
        if r.Some? {
          assert ClaimStopsAt(archive, receipts, conversations, old(states), states, now, now + leaseFor, limit, r, i);
          ClaimRespectsLeases(archive, receipts, conversations, old(states), states, now, now + leaseFor, limit, r, i);
          ClaimWrites(archive, receipts, conversations, old(states), states, now, now + leaseFor, limit, r, i, conversations[i]);
          return;
        }
        i := i + 1;
      }
      assert ClaimStopsAt(archive, receipts, conversations, old(states), states, now, now + leaseFor, limit, None, i);
      ClaimRespectsLeases(archive, receipts, conversations, old(states), states, now, now + leaseFor, limit, None, i);
      return None;
    }

    /** The checks of `_record_receipts` for one message. */
    predicate Recordable(c: ConversationId, m: Message, outcome: Outcome)
      reads this
    {
      && c in states && m in archive && m.conversation == c
      && (m.id in receipts ==> receipts[m.id] == outcome)
    }

    /** One backend-confirmed receipt; the lease stays, the derived marker moves. */
    method RecordMessageSucceeded(c: ConversationId, m: Message) returns (ok: bool)
      requires Valid()
      modifies this`states, this`receipts
      ensures ok <==> && c in old(states) && m in archive && m.conversation == c
                      && (m.id in old(receipts) ==> old(receipts)[m.id] == Ingested)
      ensures ok ==> receipts == old(receipts)[m.id := Ingested]
      ensures ok ==> states == old(states)[c := old(states)[c].(cursor := Some(m.id), dirty := Some(m.id), derivedNext := None)]
      ensures !ok ==> receipts == old(receipts) && states == old(states)
      ensures m.content ==> Valid()
    {
      if !Recordable(c, m, Ingested) {
        return false;
      }
      receipts := receipts[m.id := Ingested];
      states := states[c := states[c].(cursor := Some(m.id), dirty := Some(m.id), derivedNext := None)];
      return true;
    }

    /** The receipt of a message whose text strips to nothing. */
    method RecordMessageIgnored(c: ConversationId, m: Message) returns (ok: bool)
      requires Valid()
      modifies this`states, this`receipts
      ensures ok <==> && c in old(states) && m in archive && m.conversation == c
                      && (m.id in old(receipts) ==> old(receipts)[m.id] == IgnoredBlank)
      ensures ok ==> receipts == old(receipts)[m.id := IgnoredBlank]
      ensures ok ==> states == old(states)[c := old(states)[c].(cursor := Some(m.id))]
      ensures !ok ==> receipts == old(receipts) && states == old(states)
      ensures !m.content ==> Valid()
    {
      if !Recordable(c, m, IgnoredBlank) {
        return false;
      }
      receipts := receipts[m.id := IgnoredBlank];
      states := states[c := states[c].(cursor := Some(m.id))];
      return true;
    }

    /** `_record_receipts` without an outcome, over the whole batch. */
    method RecordReceipts(batch: seq<Message>)
      modifies this`receipts
      ensures receipts == RecordAll(old(receipts), batch)
    {
      var i := 0;
      while i < |batch|
        invariant i <= |batch| && receipts == RecordAll(old(receipts), batch[..i])
      {
        assert batch[..i + 1][..i] == batch[..i];
        if batch[i].id !in receipts {
          receipts := receipts[batch[i].id := Ingested];
        }
        i := i + 1;
      }
      assert batch[..|batch|] == batch;
    }

    /** Ends a batch: missing receipts would be added as INGESTED, and the lease is released. */
    method MarkSucceeded(c: ConversationId, batch: seq<Message>) returns (ok: bool)
      requires Valid() && batch != []
      modifies this`states, this`receipts
      ensures ok <==> c in old(states) && forall m :: m in batch ==> m in archive && m.conversation == c
      ensures ok ==> receipts == RecordAll(old(receipts), batch)
      ensures ok ==> states == old(states)[c := old(states)[c].(status := Idle, attempts := 0, nextAttempt := None,
                                           lease := None, cursor := Some(batch[|batch| - 1].id))]
      ensures !ok ==> receipts == old(receipts) && states == old(states)
      ensures (forall m :: m in batch ==> m.id in old(receipts)) ==> Valid() && receipts == old(receipts)
    {
      if c !in states || exists m :: m in batch && (m !in archive || m.conversation != c) {
        return false;
      }
      RecordReceipts(batch);
      states := states[c := states[c].Released().(cursor := Some(batch[|batch| - 1].id))];
      return true;
    }

    method RenewLease(c: ConversationId, until: Time) returns (ok: bool)
      requires Valid()
      modifies this`states
      ensures Valid() && (ok <==> c in old(states) && old(states)[c].status == Processing)
      ensures states == if ok then old(states)[c := old(states)[c].(lease := Some(until))] else old(states)
    {
      if c !in states || states[c].status != Processing {
        return false;
      }
      states := states[c := states[c].(lease := Some(until))];
      return true;
    }

    method MarkFailed(c: ConversationId, retryAt: Time) returns (ok: bool)
      requires Valid()
      modifies this`states
      ensures Valid() && (ok <==> c in old(states))
      ensures states == if ok then old(states)[c := old(states)[c].(status := Failed, nextAttempt := Some(retryAt), lease := None)]
                        else old(states)
    {
      if c !in states {
        return false;
      }
      states := states[c := states[c].FailedUntil(retryAt)];
      return true;
    }

    /** Claims some conversation whose derived state is dirty and due. */
    method ClaimDerivedRefresh(now: Time) returns (claim: Option<(ConversationId, MessageId)>)
      requires Valid()
      modifies this`states
      ensures Valid()
      ensures claim.None? ==> states == old(states) && forall c :: c in states && states[c].dirty.Some? ==>
                states[c].derivedNext.Some? && states[c].derivedNext.value > now
      ensures claim.Some? ==>
                var (c, through) := claim.value;
                && c in old(states) && old(states)[c].dirty == Some(through)
                && (old(states)[c].derivedNext.None? || old(states)[c].derivedNext.value <= now)
                && states == old(states)[c := old(states)[c].(derivedAttempts := old(states)[c].derivedAttempts + 1)]
    {
      if c :| c in states && states[c].DerivedDue(now) {
        claim := Some((c, states[c].dirty.value));
        states := states[c := states[c].(derivedAttempts := states[c].derivedAttempts + 1)];
      } else {
        claim := None;
      }
    }

    /** Clears the marker only if no later receipt moved it. */
    method MarkDerivedSucceeded(c: ConversationId, through: MessageId) returns (ok: bool)
      requires Valid()
      modifies this`states
      ensures Valid() && (ok <==> c in old(states))
      ensures ok ==> states == old(states)[c := old(states)[c].(
                       dirty := if old(states)[c].dirty == Some(through) then None else old(states)[c].dirty,
                       derivedAttempts := 0, derivedNext := None)]
      ensures !ok ==> states == old(states)
    {
      if c !in states {
        return false;
      }
      if states[c].dirty == Some(through) {
        states := states[c := states[c].(dirty := None)];
      }
      states := states[c := states[c].(derivedAttempts := 0, derivedNext := None)];
      return true;
    }

    method MarkDerivedFailed(c: ConversationId, retryAt: Time) returns (ok: bool)
      requires Valid()
      modifies this`states
      ensures Valid() && (ok <==> c in old(states))
      ensures states == if ok then old(states)[c := old(states)[c].(derivedNext := Some(retryAt))] else old(states)
    {
      if c !in states {
        return false;
      }
      states := states[c := states[c].(derivedNext := Some(retryAt))];
      return true;
    }
  }
}
