/** Many workers over one ledger: claims, renewals, receipts, failures, expired leases
    and crashes interleave transaction by transaction. */
module LedgerRuns {
  import opened Basics
  import opened IngestionLedger

  type ProcessId = nat

  /** A worker inside a batch: `done` messages are settled, and `returned` says the
      backend has confirmed the next one but its receipt is not written yet. */
  datatype Worker = Worker(conversation: ConversationId, batch: seq<Message>, done: nat, returned: bool)

  datatype State = State(archive: seq<Message>, conversations: seq<ConversationId>, states: States,
                         receipts: Receipts, workers: map<ProcessId, Worker>)

  datatype Step =
    | Arrive(message: Message)
    | Claim(pid: ProcessId, now: Time, until: Time, limit: nat, outcome: Option<Batch>)
    | Renew(pid: ProcessId, until: Time)
    | Ignore(pid: ProcessId)
    | ReturnRetain(pid: ProcessId)
    | Receipt(pid: ProcessId)
    | Finish(pid: ProcessId)
    | Fail(pid: ProcessId, retryAt: Time)
    | Crash(pid: ProcessId)

  ghost predicate SettleMessage(s: State, s': State, pid: ProcessId, outcome: Outcome) {
    && pid in s.workers && s.workers[pid].done < |s.workers[pid].batch|
    && var w := s.workers[pid];
       var m := w.batch[w.done];
       && w.conversation in s.states
       && (m.id in s.receipts ==> s.receipts[m.id] == outcome)
       && var state := s.states[w.conversation];
          var marked := if outcome == Ingested then state.(cursor := Some(m.id), dirty := Some(m.id), derivedNext := None)
                        else state.(cursor := Some(m.id));
          s' == s.(receipts := s.receipts[m.id := outcome],
                   states := s.states[w.conversation := marked],
                   workers := s.workers[pid := w.(done := w.done + 1, returned := false)])
  }

  /** One transaction, or one backend answer, of one worker. */
  ghost predicate Next(s: State, s': State, step: Step) {
    match step
    case Arrive(m) =>
      && (forall n :: n in s.archive ==> n.id != m.id)
      && s' == s.(archive := s.archive + [m],
                  conversations := if m.conversation in s.conversations then s.conversations
                                   else s.conversations + [m.conversation])
    case Claim(pid, now, until, limit, outcome) =>
      && pid !in s.workers && limit > 0
      && ClaimOutcome(s.archive, s.receipts, s.conversations, s.states, s'.states, now, until, limit, outcome)
      && s' == s.(states := s'.states,
                  workers := if outcome.None? then s.workers
                             else s.workers[pid := Worker(outcome.value.conversation, outcome.value.messages, 0, false)])
    case Renew(pid, until) =>
      && pid in s.workers && s.workers[pid].conversation in s.states
      && s.states[s.workers[pid].conversation].status == Processing
      && s' == s.(states := s.states[s.workers[pid].conversation :=
                              s.states[s.workers[pid].conversation].(lease := Some(until))])
    case Ignore(pid) =>
      && SettleMessage(s, s', pid, IgnoredBlank)
      && !s.workers[pid].batch[s.workers[pid].done].content
    case ReturnRetain(pid) =>
      && pid in s.workers && s.workers[pid].done < |s.workers[pid].batch|
      && s.workers[pid].batch[s.workers[pid].done].content
      && s' == s.(workers := s.workers[pid := s.workers[pid].(returned := true)])
    case Receipt(pid) =>
      SettleMessage(s, s', pid, Ingested) && s.workers[pid].returned
    case Finish(pid) =>
      && pid in s.workers
      && var w := s.workers[pid];
         && w.done == |w.batch| > 0 && w.conversation in s.states
         && s' == s.(receipts := RecordAll(s.receipts, w.batch),
                     states := s.states[w.conversation :=
                       s.states[w.conversation].Released().(cursor := Some(w.batch[|w.batch| - 1].id))],
                     workers := Without(s.workers, pid))
    case Fail(pid, retryAt) =>
      && pid in s.workers && s.workers[pid].conversation in s.states
      && s' == s.(states := s.states[s.workers[pid].conversation :=
                              s.states[s.workers[pid].conversation].FailedUntil(retryAt)],
                  workers := Without(s.workers, pid))
    case Crash(pid) => pid in s.workers && s' == s.(workers := Without(s.workers, pid))
  }

  const INITIAL := State([], [], map[], map[], map[])

  ghost predicate Run(states: seq<State>, steps: seq<Step>) {
    && |states| == |steps| + 1 && states[0] == INITIAL
    && forall i :: 0 <= i < |steps| ==> Next(states[i], states[i + 1], steps[i])
  }

  // ----- the invariant

  ghost predicate WorkerOk(s: State, w: Worker) {
    && w.conversation in s.states && w.batch != [] && w.done <= |w.batch|
    && (forall k :: 0 <= k < |w.batch| ==> w.batch[k] in s.archive && w.batch[k].conversation == w.conversation)
    && (forall k :: 0 <= k < w.done ==> w.batch[k].id in s.receipts)
    && (w.returned ==> w.done < |w.batch| && w.batch[w.done].content)
  }

  ghost predicate Inv(s: State) {
    LedgerOk(s.archive, s.states, s.receipts) && forall p :: p in s.workers ==> WorkerOk(s, s.workers[p])
  }

  lemma StateFrame(archive: seq<Message>, archive': seq<Message>, receipts: Receipts, receipts': Receipts,
                   c: ConversationId, state: IngestionState)
    requires StateOk(archive, receipts, c, state)
    requires forall m :: m in archive ==> m in archive'
    requires forall id :: id in receipts ==> id in receipts' && receipts'[id] == receipts[id]
    ensures StateOk(archive', receipts', c, state)
  {
  }

  lemma ArrivedReceipts(archive: seq<Message>, archive': seq<Message>, receipts: Receipts, m: Message)
    requires ReceiptsOk(archive, receipts) && (forall n :: n in archive ==> n.id != m.id)
    requires UniqueIds(archive') && (forall n :: n in archive' <==> n in archive || n == m)
    ensures ReceiptsOk(archive', receipts)
  {
    forall id | id in receipts ensures exists n :: n in archive' && n.id == id {
      var n :| n in archive && n.id == id;
      assert n in archive';
    }
    assert m.id !in receipts;
  }

  lemma ArriveKept(s: State, s': State, step: Step)
    requires Inv(s) && step.Arrive? && Next(s, s', step)
    ensures Inv(s')
  {
    assert forall n :: n in s.archive ==> n in s'.archive;
    assert forall i, j :: 0 <= i < j < |s'.archive| ==> s'.archive[i].id != s'.archive[j].id;
    ArrivedReceipts(s.archive, s'.archive, s.receipts, step.message);
    forall c | c in s.states ensures StateOk(s'.archive, s.receipts, c, s.states[c]) {
      StateFrame(s.archive, s'.archive, s.receipts, s.receipts, c, s.states[c]);
    }
    forall p | p in s.workers ensures WorkerOk(s', s.workers[p]) {
      assert WorkerOk(s, s.workers[p]);
    }
  }

  lemma ClaimKept(s: State, s': State, step: Step)
    requires Inv(s) && step.Claim? && Next(s, s', step)
    ensures Inv(s')
  {
    var r := step.outcome;
    var i: nat :| ClaimStopsAt(s.archive, s.receipts, s.conversations, s.states, s'.states, step.now, step.until,
                               step.limit, r, i);
    forall c
      ensures c in s.states ==> c in s'.states
      ensures c in s'.states ==> StateOk(s.archive, s.receipts, c, s'.states[c])
    {
      ClaimLeavesOthers(s.archive, s.receipts, s.conversations, s.states, s'.states, step.now, step.until,
                        step.limit, r, i, c);
    }
    forall p | p in s'.workers ensures WorkerOk(s', s'.workers[p]) {
      if p in s.workers && p != step.pid {
        assert WorkerOk(s, s.workers[p]);
      } else if r.Some? {
        var pending := Pending(s.archive, s.receipts, r.value.conversation);
        assert forall k :: 0 <= k < |r.value.messages| ==> r.value.messages[k] in pending;
      }
    }
  }

  lemma SettleKept(s: State, s': State, pid: ProcessId, outcome: Outcome)
    requires Inv(s) && SettleMessage(s, s', pid, outcome)
    requires s.workers[pid].batch[s.workers[pid].done].content <==> outcome == Ingested
    ensures Inv(s')
  {
    var w := s.workers[pid];
    var m := w.batch[w.done];
    assert WorkerOk(s, w);
    forall c | c in s'.states ensures StateOk(s.archive, s'.receipts, c, s'.states[c]) {
      StateFrame(s.archive, s.archive, s.receipts, s'.receipts, c, s.states[c]);
    }
    forall p | p in s'.workers ensures WorkerOk(s', s'.workers[p]) {
      assert WorkerOk(s, s.workers[p]);
    }
    SameIdSameMessage(s.archive, m);
  }

  lemma SameIdSameMessage(archive: seq<Message>, m: Message)
    requires UniqueIds(archive) && m in archive
    ensures forall n :: n in archive && n.id == m.id ==> n == m
  {
  }

  lemma LeaseStepKept(s: State, s': State, step: Step)
    requires Inv(s) && Next(s, s', step) && (step.Renew? || step.Fail? || step.Crash? || step.ReturnRetain?)
    ensures Inv(s')
  {
    assert WorkerOk(s, s.workers[step.pid]);
    forall p | p in s'.workers ensures WorkerOk(s', s'.workers[p]) {
      assert WorkerOk(s, s.workers[p]);
    }
    forall c | c in s'.states ensures StateOk(s.archive, s.receipts, c, s'.states[c]) {
      assert StateOk(s.archive, s.receipts, c, s.states[c]);
    }
  }

  /** `_finish` adds no receipt: everything in its batch is receipted already. */
  lemma FinishAddsNoReceipt(s: State, s': State, step: Step)
    requires Inv(s) && step.Finish? && Next(s, s', step)
    ensures s'.receipts == s.receipts && Inv(s')
  {
    var w := s.workers[step.pid];
    assert WorkerOk(s, w);
    assert forall m :: m in w.batch ==> m.id in s.receipts;
    forall p | p in s'.workers ensures WorkerOk(s', s'.workers[p]) {
      assert WorkerOk(s, s.workers[p]);
    }
    assert Receipted(s.archive, s.receipts, w.conversation, w.batch[|w.batch| - 1].id);
    forall c | c in s'.states ensures StateOk(s.archive, s.receipts, c, s'.states[c]) {
      assert StateOk(s.archive, s.receipts, c, s.states[c]);
    }
  }

  lemma InvKept(s: State, s': State, step: Step)
    requires Inv(s) && Next(s, s', step)
    ensures Inv(s')
  {
    match step {
      case Arrive(_) => ArriveKept(s, s', step);
      case Claim(_, _, _, _, _) => ClaimKept(s, s', step);
      case Ignore(pid) => SettleKept(s, s', pid, IgnoredBlank);
      case Receipt(pid) =>
        assert WorkerOk(s, s.workers[pid]);
        SettleKept(s, s', pid, Ingested);
      case Finish(_) => FinishAddsNoReceipt(s, s', step);
      case _ => LeaseStepKept(s, s', step);
    }
  }

  // ----- every run

  lemma {:induction false} RunKeepsInv(states: seq<State>, steps: seq<Step>, n: nat)
    requires Run(states, steps) && n < |states|
    ensures Inv(states[n])
  {
    if n > 0 {
      RunKeepsInv(states, steps, n - 1);
      InvKept(states[n - 1], states[n], steps[n - 1]);
    }
  }

  /** Under any interleaving, crashes and expired leases included: PROCESSING exactly
      while leased, the cursor and the dirty marker name receipted messages of their
      conversation, and a receipt says INGESTED exactly for content. */
  lemma LedgerStaysConsistent(states: seq<State>, steps: seq<Step>, n: nat)
    requires Run(states, steps) && n < |states|
    ensures var s := states[n];
            && (forall c :: c in s.states ==> (s.states[c].status == Processing <==> s.states[c].lease.Some?))
            && (forall c :: c in s.states && s.states[c].cursor.Some? ==> s.states[c].cursor.value in s.receipts)
            && (forall c :: c in s.states && s.states[c].dirty.Some? ==>
                  s.states[c].dirty.value in s.receipts && s.receipts[s.states[c].dirty.value] == Ingested)
            && (forall m :: m in s.archive && m.id in s.receipts ==> (s.receipts[m.id] == Ingested <==> m.content))
  {
    RunKeepsInv(states, steps, n);
    var s := states[n];
    assert forall c :: c in s.states ==> StateOk(s.archive, s.receipts, c, s.states[c]);
  }

  // ----- a lease excludes other claims

  ghost predicate ClaimsAt(steps: seq<Step>, i: nat, c: ConversationId) {
    i < |steps| && steps[i].Claim? && steps[i].outcome.Some? && steps[i].outcome.value.conversation == c
  }

  ghost predicate HeldUntil(s: State, c: ConversationId, lease: Time) {
    c in s.states && s.states[c].status == Processing && s.states[c].lease == Some(lease)
  }

  /** A step after which `c` may be free before `lease`: a worker finished, failed or renewed
      a batch of it, or someone claimed at a time when the lease had run out. */
  ghost predicate MayFree(s: State, step: Step, c: ConversationId, lease: Time) {
    match step
    case Claim(_, now, _, _, _) => now >= lease
    case Finish(p) => p in s.workers && s.workers[p].conversation == c
    case Fail(p, _) => p in s.workers && s.workers[p].conversation == c
    case Renew(p, _) => p in s.workers && s.workers[p].conversation == c
    case _ => false
  }

  lemma LeaseStays(s: State, s': State, step: Step, c: ConversationId, lease: Time)
    requires Next(s, s', step) && HeldUntil(s, c, lease) && !MayFree(s, step, c, lease)
    ensures HeldUntil(s', c, lease)
  {
    if step.Claim? {
      LeaseStaysAtClaim(s, s', step, c, lease);
    }
  }

  lemma LeaseStaysAtClaim(s: State, s': State, step: Step, c: ConversationId, lease: Time)
    requires Next(s, s', step) && HeldUntil(s, c, lease) && step.Claim? && step.now < lease
    ensures HeldUntil(s', c, lease)
  {
    var i: nat :| ClaimStopsAt(s.archive, s.receipts, s.conversations, s.states, s'.states, step.now, step.until,
                               step.limit, step.outcome, i);
    ClaimRespectsLeases(s.archive, s.receipts, s.conversations, s.states, s'.states, step.now, step.until, step.limit,
                        step.outcome, i);
    PassedOrSame(s.archive, s.receipts, s.conversations, s.states, s'.states, step.now, step.until, step.limit,
                 step.outcome, i, c);
  }

  lemma ClaimHolds(s: State, s': State, step: Step)
    requires Next(s, s', step) && step.Claim? && step.outcome.Some?
    ensures HeldUntil(s', step.outcome.value.conversation, step.until)
    ensures var c := step.outcome.value.conversation;
            c in s.states && s.states[c].status == Processing && s.states[c].lease.Some? ==> s.states[c].lease.value <= step.now
  {
    var i: nat :| ClaimStopsAt(s.archive, s.receipts, s.conversations, s.states, s'.states, step.now, step.until,
                               step.limit, step.outcome, i);
    ClaimRespectsLeases(s.archive, s.receipts, s.conversations, s.states, s'.states, step.now, step.until, step.limit,
                        step.outcome, i);
    ClaimWrites(s.archive, s.receipts, s.conversations, s.states, s'.states, step.now, step.until, step.limit,
                step.outcome, i, step.outcome.value.conversation);
  }

  lemma {:induction false} LeaseStaysOver(states: seq<State>, steps: seq<Step>, i: nat, j: nat, c: ConversationId)
    requires Run(states, steps) && i < j < |states| && ClaimsAt(steps, i, c)
    requires forall k :: i < k < j ==> !MayFree(states[k], steps[k], c, steps[i].until)
    ensures HeldUntil(states[j], c, steps[i].until)
    decreases j
  {
    if j == i + 1 {
      ClaimHolds(states[i], states[j], steps[i]);
    } else {
      LeaseStaysOver(states, steps, i, j - 1, c);
      LeaseStays(states[j - 1], states[j], steps[j - 1], c, steps[i].until);
    }
  }

  /** Under any interleaving a leased conversation is claimed again only at a time when the
      lease has run out, unless a worker finished, failed or renewed a batch of it between. */
  lemma LeaseExcludesClaims(states: seq<State>, steps: seq<Step>, i: nat, j: nat, c: ConversationId)
    requires Run(states, steps) && i < j && ClaimsAt(steps, i, c) && ClaimsAt(steps, j, c)
    requires forall k :: i < k < j ==> !MayFree(states[k], steps[k], c, steps[i].until)
    ensures steps[j].now >= steps[i].until
  {
    LeaseStaysOver(states, steps, i, j, c);
    ClaimHolds(states[j], states[j + 1], steps[j]);
  }

  // ----- a failure puts off the next claim

  ghost predicate WaitsUntil(s: State, c: ConversationId, retryAt: Time) {
    c in s.states && s.states[c].nextAttempt == Some(retryAt)
  }

  /** A step after which `c` may be claimed before `retryAt`: another worker of it finished or
      failed, or the claim came when the delay was over. */
  ghost predicate MayEndWait(s: State, step: Step, c: ConversationId, retryAt: Time) {
    match step
    case Claim(_, now, _, _, _) => now >= retryAt
    case Finish(p) => p in s.workers && s.workers[p].conversation == c
    case Fail(p, _) => p in s.workers && s.workers[p].conversation == c
    case _ => false
  }

  lemma WaitStays(s: State, s': State, step: Step, c: ConversationId, retryAt: Time)
    requires Next(s, s', step) && WaitsUntil(s, c, retryAt) && !MayEndWait(s, step, c, retryAt)
    ensures WaitsUntil(s', c, retryAt)
    ensures step.Claim? && step.outcome.Some? ==> step.outcome.value.conversation != c
  {
    if step.Claim? {
      WaitStaysAtClaim(s, s', step, c, retryAt);
    }
  }

  lemma WaitStaysAtClaim(s: State, s': State, step: Step, c: ConversationId, retryAt: Time)
    requires Next(s, s', step) && WaitsUntil(s, c, retryAt) && step.Claim? && step.now < retryAt
    ensures WaitsUntil(s', c, retryAt) && (step.outcome.Some? ==> step.outcome.value.conversation != c)
  {
    var i: nat :| ClaimStopsAt(s.archive, s.receipts, s.conversations, s.states, s'.states, step.now, step.until,
                               step.limit, step.outcome, i);
    ClaimRespectsLeases(s.archive, s.receipts, s.conversations, s.states, s'.states, step.now, step.until, step.limit,
                        step.outcome, i);
    PassedOrSame(s.archive, s.receipts, s.conversations, s.states, s'.states, step.now, step.until, step.limit,
                 step.outcome, i, c);
  }

  ghost predicate FailsAt(states: seq<State>, steps: seq<Step>, i: nat, c: ConversationId) {
    i < |steps| < |states| && steps[i].Fail? && steps[i].pid in states[i].workers
    && states[i].workers[steps[i].pid].conversation == c
  }

  lemma {:induction false} WaitStaysOver(states: seq<State>, steps: seq<Step>, i: nat, j: nat, c: ConversationId)
    requires Run(states, steps) && i < j < |states| && FailsAt(states, steps, i, c)
    requires forall k :: i < k < j ==> !MayEndWait(states[k], steps[k], c, steps[i].retryAt)
    ensures WaitsUntil(states[j], c, steps[i].retryAt)
    decreases j
  {
    if j == i + 1 {
      assert Next(states[i], states[j], steps[i]);
    } else {
      WaitStaysOver(states, steps, i, j - 1, c);
      WaitStays(states[j - 1], states[j], steps[j - 1], c, steps[i].retryAt);
    }
  }

  /** Under any interleaving a conversation whose batch failed is claimed again only when its
      retry time has come, unless another worker finished or failed a batch of it between. */
  lemma FailureDelaysClaims(states: seq<State>, steps: seq<Step>, i: nat, j: nat, c: ConversationId)
    requires Run(states, steps) && i < j && FailsAt(states, steps, i, c) && ClaimsAt(steps, j, c)
    requires forall k :: i < k < j ==> !MayEndWait(states[k], steps[k], c, steps[i].retryAt)
    ensures steps[j].now >= steps[i].retryAt
  {
    WaitStaysOver(states, steps, i, j, c);
    if steps[j].now < steps[i].retryAt {
      WaitStays(states[j], states[j + 1], steps[j], c, steps[i].retryAt);
      assert false;
    }
  }

  /** A receipt, once written, is never removed and never changes its outcome. */
  lemma {:induction false} ReceiptsAreFinal(states: seq<State>, steps: seq<Step>, i: nat, j: nat)
    requires Run(states, steps) && i <= j < |states|
    ensures forall id :: id in states[i].receipts ==>
              id in states[j].receipts && states[j].receipts[id] == states[i].receipts[id]
    decreases j - i
  {
    if i < j {
      ReceiptsAreFinal(states, steps, i, j - 1);
      assert Next(states[j - 1], states[j], steps[j - 1]);
    }
  }

  /** The backend confirmed `id` to some worker at step `i`. */
  ghost predicate ConfirmedAt(states: seq<State>, steps: seq<Step>, i: nat, id: MessageId) {
    && i < |steps| < |states| && steps[i].ReturnRetain? && steps[i].pid in states[i].workers
    && var w := states[i].workers[steps[i].pid];
       w.done < |w.batch| && w.batch[w.done].id == id
  }

  /** Every INGESTED receipt follows a retain of its message that returned. */
  lemma {:induction false} IngestedOnlyAfterRetain(states: seq<State>, steps: seq<Step>, n: nat, id: MessageId)
    requires Run(states, steps) && n < |states|
    requires || (id in states[n].receipts && states[n].receipts[id] == Ingested)
             || exists p :: p in states[n].workers && Awaiting(states[n].workers[p], id)
    ensures exists i: nat :: i < n && ConfirmedAt(states, steps, i, id)
  {
    RunKeepsInv(states, steps, n);
    if n > 0 {
      var s, step := states[n - 1], steps[n - 1];
      assert Next(s, states[n], step);
      RunKeepsInv(states, steps, n - 1);
      if || (id in s.receipts && s.receipts[id] == Ingested)
         || exists p :: p in s.workers && Awaiting(s.workers[p], id)
      {
        IngestedOnlyAfterRetain(states, steps, n - 1, id);
      } else {
        NewlyConfirmed(s, states[n], step, id);
        assert ConfirmedAt(states, steps, n - 1, id);
      }
    }
  }

  ghost predicate Awaiting(w: Worker, id: MessageId) {
    w.returned && w.done < |w.batch| && w.batch[w.done].id == id
  }

  lemma NewlyConfirmed(s: State, s': State, step: Step, id: MessageId)
    requires Inv(s) && Next(s, s', step)
    requires !(id in s.receipts && s.receipts[id] == Ingested)
    requires forall p :: p in s.workers ==> !Awaiting(s.workers[p], id)
    requires || (id in s'.receipts && s'.receipts[id] == Ingested)
             || exists p :: p in s'.workers && Awaiting(s'.workers[p], id)
    ensures step.ReturnRetain? && step.pid in s.workers && s.workers[step.pid].done < |s.workers[step.pid].batch|
    ensures s.workers[step.pid].batch[s.workers[step.pid].done].id == id
  {
    if step.Finish? {
      FinishAddsNoReceipt(s, s', step);
    }
    assert forall p :: p in s'.workers && p in s.workers && s'.workers[p] == s.workers[p] ==> !Awaiting(s'.workers[p], id);
  }
}
