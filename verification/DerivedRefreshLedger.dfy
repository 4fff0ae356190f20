/** The refresh model against the ledger: on one conversation, every batch step of the refresh
    model is a run of ledger transactions, so the two agree on receipts, status and marker. */
module DerivedRefreshLedger {
  import opened Basics
  import opened IngestionLedger
  import L = LedgerRuns
  import D = DerivedRefresh

  /** The same archive, receipts, status and marker, and the same batches under way. */
  ghost predicate Matches(l: L.State, r: D.State) {
    && l.archive == r.archive && l.receipts == r.receipts && l.conversations == [D.CONVERSATION]
    && StateOf(l.states, D.CONVERSATION).status == r.status && StateOf(l.states, D.CONVERSATION).dirty == r.dirty
    && (forall w :: w in l.workers ==> w in r.phases && SameBatch(l.workers[w], r.phases[w]))
    && (forall w :: w in r.phases && r.phases[w].Batching? ==> w in l.workers)
  }

  ghost predicate SameBatch(worker: L.Worker, phase: D.Phase) {
    && worker.conversation == D.CONVERSATION && !worker.returned && worker.done <= |worker.batch|
    && phase.Batching? && phase.rest == worker.batch[worker.done..]
  }

  /** One ledger transaction, or two with the backend's answer between. */
  ghost predicate InTwo(l: L.State, l': L.State) {
    || (exists step :: L.Next(l, l', step))
    || (exists middle, first, second :: L.Next(l, middle, first) && L.Next(middle, l', second))
  }

  /** A time at which neither a lease nor a retry delay is left. */
  function Later(s: IngestionState): Time {
    Max(if s.lease.Some? then s.lease.value else 0, if s.nextAttempt.Some? then s.nextAttempt.value else 0)
  }

  function Max(a: int, b: int): int {
    if a > b then a else b
  }

  lemma ClaimRefines(l: L.State, r: D.State, w: nat, limit: nat) returns (l': L.State)
    requires Matches(l, r) && D.Enabled(r, D.ClaimBatch(w, limit))
    ensures InTwo(l, l') && Matches(l', D.Apply(r, D.ClaimBatch(w, limit)))
  {
    var c, state := D.CONVERSATION, StateOf(l.states, D.CONVERSATION);
    var now := Later(state);
    var pending := Pending(l.archive, l.receipts, c);
    var batch := Batch(c, state.attempts + 1, pending[..Min(limit, |pending|)]);
    l' := l.(states := l.states[c := state.Claimed(now + 1)], workers := l.workers[w := L.Worker(c, batch.messages, 0, false)]);
    assert ClaimStopsAt(l.archive, l.receipts, l.conversations, l.states, l'.states, now, now + 1, limit, Some(batch), 0);
    assert L.Next(l, l', L.Claim(w, now, now + 1, limit, Some(batch)));
  }

  lemma DrainedRefines(l: L.State, r: D.State, w: nat) returns (l': L.State)
    requires Matches(l, r) && D.Enabled(r, D.FindDrained(w))
    ensures InTwo(l, l') && Matches(l', D.Apply(r, D.FindDrained(w)))
  {
    var c, state := D.CONVERSATION, StateOf(l.states, D.CONVERSATION);
    var now := Later(state);
    l' := l.(states := l.states[c := state.Released()]);
    assert Passed(l.archive, l.receipts, l.states, l'.states, c, now);
    assert ClaimStopsAt(l.archive, l.receipts, l.conversations, l.states, l'.states, now, now + 1, 1, None, 1);
    assert L.Next(l, l', L.Claim(w, now, now + 1, 1, None));
  }

  lemma RetainRefines(l: L.State, r: D.State, w: nat, m: Message) returns (l': L.State)
    requires Matches(l, r) && L.Inv(l) && D.Enabled(r, D.Settle(w)) && m == r.phases[w].rest[0] && m.content
    ensures InTwo(l, l') && Matches(l', D.Apply(r, D.Settle(w)))
  {
    var worker, c := l.workers[w], D.CONVERSATION;
    assert L.WorkerOk(l, worker);
    assert worker.batch[worker.done..][1..] == worker.batch[worker.done + 1..];
    var middle := l.(workers := l.workers[w := worker.(returned := true)]);
    assert L.Next(l, middle, L.ReturnRetain(w));
    var marked := l.states[c].(cursor := Some(m.id), dirty := Some(m.id), derivedNext := None);
    l' := middle.(receipts := l.receipts[m.id := Ingested], states := l.states[c := marked],
                  workers := middle.workers[w := worker.(done := worker.done + 1)]);
    assert L.Next(middle, l', L.Receipt(w));
  }

  lemma IgnoreRefines(l: L.State, r: D.State, w: nat, m: Message) returns (l': L.State)
    requires Matches(l, r) && L.Inv(l) && D.Enabled(r, D.Settle(w)) && m == r.phases[w].rest[0] && !m.content
    ensures InTwo(l, l') && Matches(l', D.Apply(r, D.Settle(w)))
  {
    var worker, c := l.workers[w], D.CONVERSATION;
    assert L.WorkerOk(l, worker);
    assert worker.batch[worker.done..][1..] == worker.batch[worker.done + 1..];
    l' := l.(receipts := l.receipts[m.id := IgnoredBlank], states := l.states[c := l.states[c].(cursor := Some(m.id))],
             workers := l.workers[w := worker.(done := worker.done + 1)]);
    assert L.Next(l, l', L.Ignore(w));
  }

  lemma RenewRefines(l: L.State, r: D.State, w: nat) returns (l': L.State)
    requires Matches(l, r) && L.Inv(l) && D.Enabled(r, D.Renew(w))
    ensures InTwo(l, l') && Matches(l', D.Apply(r, D.Renew(w)))
  {
    assert L.WorkerOk(l, l.workers[w]);
    l' := l.(states := l.states[D.CONVERSATION := l.states[D.CONVERSATION].(lease := Some(0))]);
    assert L.Next(l, l', L.Renew(w, 0));
  }

  lemma FinishRefines(l: L.State, r: D.State, w: nat) returns (l': L.State)
    requires Matches(l, r) && L.Inv(l) && D.Enabled(r, D.Finish(w))
    ensures InTwo(l, l') && Matches(l', D.Apply(r, D.Finish(w)))
  {
    var worker, c := l.workers[w], D.CONVERSATION;
    assert L.WorkerOk(l, worker) && worker.done == |worker.batch|;
    assert forall m :: m in worker.batch ==> m.id in l.receipts;
    var finished := l.states[c].Released().(cursor := Some(worker.batch[|worker.batch| - 1].id));
    l' := l.(states := l.states[c := finished], workers := Without(l.workers, w));
    assert L.Next(l, l', L.Finish(w));
  }

  lemma StopRefines(l: L.State, r: D.State, step: D.Step) returns (l': L.State)
    requires Matches(l, r) && L.Inv(l) && D.Enabled(r, step) && (step.Fail? || step.Crash?) && step.worker in l.workers
    ensures InTwo(l, l') && Matches(l', D.Apply(r, step))
  {
    var w, c := step.worker, D.CONVERSATION;
    assert L.WorkerOk(l, l.workers[w]);
    l' := l.(workers := Without(l.workers, w));
    if step.Fail? {
      l' := l'.(states := l.states[c := l.states[c].FailedUntil(0)]);
      assert L.Next(l, l', L.Fail(w, 0));
    } else {
      assert L.Next(l, l', L.Crash(w));
    }
  }

  /** Every step of the refresh model but arrivals and refreshes is one or two transactions of the ledger. */
  lemma BatchStepRefinesLedger(l: L.State, r: D.State, step: D.Step) returns (l': L.State)
    requires Matches(l, r) && L.Inv(l) && D.Enabled(r, step)
    requires step.ClaimBatch? || step.FindDrained? || step.Renew? || step.Settle? || step.Finish? || step.Fail?
             || (step.Crash? && step.worker in l.workers)
    ensures InTwo(l, l') && Matches(l', D.Apply(r, step))
  {
    match step {
      case ClaimBatch(w, limit) => l' := ClaimRefines(l, r, w, limit);
      case FindDrained(w) => l' := DrainedRefines(l, r, w);
      case Renew(w) => l' := RenewRefines(l, r, w);
      case Settle(w) =>
        if r.phases[w].rest[0].content {
          l' := RetainRefines(l, r, w, r.phases[w].rest[0]);
        } else {
          l' := IgnoreRefines(l, r, w, r.phases[w].rest[0]);
        }
      case Finish(w) => l' := FinishRefines(l, r, w);
      case _ => l' := StopRefines(l, r, step);
    }
  }

  /** A refresh touches the ledger only in the end: it clears the marker if no later receipt moved it. */
  lemma RefreshStepMatches(l: L.State, r: D.State, step: D.Step)
    requires Matches(l, r) && D.Enabled(r, step)
    requires step.ClaimRefresh? || step.ReadArchive? || step.CommitRefresh? || step.MarkSucceeded? || step.MarkRefreshFailed?
    ensures var c, state := D.CONVERSATION, StateOf(l.states, D.CONVERSATION);
            var cleared := step.MarkSucceeded? && state.dirty == Some(r.phases[step.worker].through);
            Matches(if cleared then l.(states := l.states[c := state.(dirty := None)]) else l, D.Apply(r, step))
  {
  }
}
