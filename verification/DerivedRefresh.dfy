/** The derived-refresh marker of one conversation. Receipts set it, and a refresh
    clears it only if it names the same message as when the refresh was claimed.

    Any number of workers drain the conversation, each through `process_once`: it
    holds one batch at a time, or one refresh, and every await is a separate step.
    Time passes freely between steps, so a lease or a retry delay only postpones a
    claim; a worker may also be busy with another conversation in between. */
module DerivedRefresh {
  import opened Basics
  import opened IngestionLedger

  type WorkerId = nat

  /** Where a worker stands between two awaits. In a batch, `rest` is still to be
      settled, and `renewed` says that the lease was renewed for its first message. */
  datatype Phase =
    | Batching(rest: seq<Message>, renewed: bool)
    | Claimed(through: MessageId)
    | Read(through: MessageId, snapshot: set<MessageId>)
    | Refreshed(through: MessageId)
  {
    predicate Refreshing() {
      !Batching?
    }
  }

  /** `covered` is what the snapshots of all committed refreshes contained, from which
      observations accumulate; `summary` is the snapshot of the last one, which replaced
      the conversation summary. */
  datatype State = State(archive: seq<Message>, receipts: Receipts, status: Status, dirty: Option<MessageId>,
                         covered: set<MessageId>, summary: set<MessageId>, phases: map<WorkerId, Phase>)

  datatype Step =
    | Arrive(position: nat, message: Message)
    | ClaimBatch(worker: WorkerId, limit: nat)
    | FindDrained(worker: WorkerId)
    | Renew(worker: WorkerId)
    | Settle(worker: WorkerId)
    | Finish(worker: WorkerId)
    | Fail(worker: WorkerId)
    | ClaimRefresh(worker: WorkerId)
    | ReadArchive(worker: WorkerId)
    | CommitRefresh(worker: WorkerId)
    | MarkSucceeded(worker: WorkerId)
    | MarkRefreshFailed(worker: WorkerId)
    | Crash(worker: WorkerId)

  const CONVERSATION: ConversationId := 0

  function Contents(archive: seq<Message>): set<MessageId> {
    set m | m in archive && m.content :: m.id
  }

  function Ingested(receipts: Receipts): set<MessageId> {
    set id | id in receipts && receipts[id] == Outcome.Ingested
  }

  predicate Enabled(s: State, step: Step) {
    match step
    case Arrive(position, m) =>
      position <= |s.archive| && m.conversation == CONVERSATION && forall other :: other in s.archive ==> other.id != m.id
    case ClaimBatch(w, limit) => w !in s.phases && limit > 0 && Pending(s.archive, s.receipts, CONVERSATION) != []
    case FindDrained(w) => w !in s.phases && Pending(s.archive, s.receipts, CONVERSATION) == []
    case Renew(w) =>
      && w in s.phases && s.phases[w].Batching? && s.phases[w].rest != [] && !s.phases[w].renewed
      && s.status == Processing
    case Settle(w) => w in s.phases && s.phases[w].Batching? && s.phases[w].rest != [] && s.phases[w].renewed
    case Finish(w) => w in s.phases && s.phases[w].Batching? && s.phases[w].rest == []
    case Fail(w) => w in s.phases && s.phases[w].Batching?
    case ClaimRefresh(w) => w !in s.phases && s.dirty.Some?
    case ReadArchive(w) => w in s.phases && s.phases[w].Claimed?
    case CommitRefresh(w) => w in s.phases && s.phases[w].Read?
    case MarkSucceeded(w) => w in s.phases && s.phases[w].Refreshed?
    case MarkRefreshFailed(w) => w in s.phases && (s.phases[w].Claimed? || s.phases[w].Read?)
    case Crash(w) => w in s.phases
  }

  function Put(s: State, w: WorkerId, phase: Phase): State {
    s.(phases := s.phases[w := phase])
  }

  function Exit(s: State, w: WorkerId): State {
    s.(phases := Without(s.phases, w))
  }

  /** One receipt: content is INGESTED and moves the marker, a blank is only passed over. */
  function Receipt(s: State, m: Message): State {
    var outcome := if m.content then Outcome.Ingested else IgnoredBlank;
    s.(receipts := if m.id in s.receipts then s.receipts else s.receipts[m.id := outcome],
       dirty := if m.content then Some(m.id) else s.dirty)
  }

  function Apply(s: State, step: Step): State
    requires Enabled(s, step)
  {
    match step
    case Arrive(position, m) => s.(archive := s.archive[..position] + [m] + s.archive[position..])
    case ClaimBatch(w, limit) =>
      var pending := Pending(s.archive, s.receipts, CONVERSATION);
      Put(s.(status := Processing), w, Batching(pending[..Min(limit, |pending|)], false))
    case FindDrained(_) => s.(status := Idle)
    case Renew(w) => Put(s, w, s.phases[w].(renewed := true))
    case Settle(w) =>
      var rest := s.phases[w].rest;
      Put(Receipt(s, rest[0]), w, Batching(rest[1..], false))
    case Finish(w) => Exit(s.(status := Idle), w)
    case Fail(w) => Exit(s.(status := Failed), w)
    case ClaimRefresh(w) => Put(s, w, Claimed(s.dirty.value))
    case ReadArchive(w) => Put(s, w, Read(s.phases[w].through, Contents(s.archive)))
    case CommitRefresh(w) =>
      var snapshot := s.phases[w].snapshot;
      Put(s.(covered := s.covered + snapshot, summary := if snapshot == {} then s.summary else snapshot),
          w, Refreshed(s.phases[w].through))
    case MarkSucceeded(w) =>
      Exit(s.(dirty := if s.dirty == Some(s.phases[w].through) then None else s.dirty), w)
    case MarkRefreshFailed(w) => Exit(s, w)
    case Crash(w) => Exit(s, w)
  }

  const INITIAL := State([], map[], Idle, None, {}, {}, map[])

  function Run(s: State, steps: seq<Step>): Option<State>
    decreases |steps|
  {
    if steps == [] then Some(s)
    else
      var before := Run(s, steps[..|steps| - 1]);
      if before.Some? && Enabled(before.value, steps[|steps| - 1])
      then Some(Apply(before.value, steps[|steps| - 1]))
      else None
  }

  /** At most `n` workers are alive at a time; one that crashed may be started again. */
  ghost predicate Staffed(steps: seq<Step>, n: nat) {
    forall i :: 0 <= i < |steps| && !steps[i].Arrive? ==> steps[i].worker < n
  }

  // ----- the summary

  /** Commits only add to what is covered, and a summary, once there, is never replaced by none. */
  lemma {:induction false} SummaryStays(s: State, steps: seq<Step>)
    requires Run(s, steps).Some?
    ensures var t := Run(s, steps).value; s.covered <= t.covered && (s.summary != {} ==> t.summary != {})
    decreases |steps|
  {
    if steps != [] {
      SummaryStays(s, steps[..|steps| - 1]);
    }
  }

  // ----- what every run keeps

  /** Only archived messages are receipted or in a batch, and INGESTED means content. */
  ghost predicate Known(s: State) {
    && Ingested(s.receipts) <= Contents(s.archive)
    && (s.dirty.Some? ==> s.dirty.value in s.receipts)
    && forall w :: w in s.phases ==>
         if s.phases[w].Batching? then Archived(s.archive, s.phases[w].rest) else s.phases[w].through in s.receipts
  }

  ghost predicate Archived(archive: seq<Message>, batch: seq<Message>) {
    forall i :: 0 <= i < |batch| ==> batch[i] in archive
  }

  lemma ArriveKeepsKnown(s: State, step: Step)
    requires Known(s) && Enabled(s, step) && step.Arrive?
    ensures Known(Apply(s, step)) && Contents(s.archive) <= Contents(Apply(s, step).archive)
  {
    var after := Apply(s, step).archive;
    forall m | m in s.archive ensures m in after {
      var i :| 0 <= i < |s.archive| && s.archive[i] == m;
      assert after[if i < step.position then i else i + 1] == m;
    }
  }

  lemma KnownKept(s: State, step: Step)
    requires Known(s) && Enabled(s, step)
    ensures Known(Apply(s, step))
  {
    if step.Arrive? {
      ArriveKeepsKnown(s, step);
    } else if step.Settle? {
      assert Archived(s.archive, s.phases[step.worker].rest);
    }
  }

  // ----- one worker: the stored summary is current

  ghost predicate OneOk(s: State) {
    && Known(s) && s.phases.Keys <= {0}
    && (s.dirty.None? ==> Ingested(s.receipts) <= s.summary)
    && (0 in s.phases ==> match s.phases[0]
                          case Read(_, snapshot) => Ingested(s.receipts) <= snapshot
                          case Refreshed(_) => Ingested(s.receipts) <= s.summary
                          case _ => true)
  }

  lemma OneKept(s: State, step: Step)
    requires OneOk(s) && Enabled(s, step) && (step.Arrive? || step.worker == 0)
    ensures OneOk(Apply(s, step))
  {
    KnownKept(s, step);
  }

  // ----- two workers: no refresh is lost

  /** While `w` refreshes through `through`, a peer whose batch still holds that message
      claimed it before the refresh began, so everything it can receipt was archived by
      the time `w` read. */
  ghost predicate RefreshOk(s: State, seen: set<MessageId>, through: MessageId, peer: WorkerId) {
    && (s.dirty == Some(through) ==> Ingested(s.receipts) <= seen)
    && (peer in s.phases && s.phases[peer].Batching? && Holds(s.phases[peer].rest, through) ==>
          Ingested(s.receipts) <= seen && SeenAll(s.phases[peer].rest, seen))
  }

  ghost predicate Holds(batch: seq<Message>, id: MessageId) {
    exists i :: 0 <= i < |batch| && batch[i].id == id
  }

  ghost predicate SeenAll(batch: seq<Message>, seen: set<MessageId>) {
    forall i :: 0 <= i < |batch| && batch[i].content ==> batch[i].id in seen
  }

  ghost predicate WorkerOk(s: State, w: WorkerId, peer: WorkerId) {
    w in s.phases ==> match s.phases[w]
                      case Read(through, snapshot) => RefreshOk(s, snapshot, through, peer)
                      case Refreshed(through) => RefreshOk(s, s.covered, through, peer)
                      case _ => true
  }

  ghost predicate TwoOk(s: State) {
    && Known(s) && s.phases.Keys <= {0, 1}
    && (s.dirty.None? ==> Ingested(s.receipts) <= s.covered)
    && WorkerOk(s, 0, 1) && WorkerOk(s, 1, 0)
  }

  /** A step of the refreshing worker, or of nobody. */
  lemma OwnStep(s: State, step: Step, w: WorkerId, peer: WorkerId)
    requires Known(s) && WorkerOk(s, w, peer) && w != peer && Enabled(s, step)
    requires step.Arrive? || step.worker == w
    ensures WorkerOk(Apply(s, step), w, peer)
  {
    if step.ReadArchive? && peer in s.phases && s.phases[peer].Batching? {
      assert Archived(s.archive, s.phases[peer].rest);
    }
  }

  /** A step of the peer. */
  lemma PeerStep(s: State, step: Step, w: WorkerId, peer: WorkerId)
    requires Known(s) && WorkerOk(s, w, peer) && w != peer && Enabled(s, step)
    requires !step.Arrive? && step.worker == peer
    ensures WorkerOk(Apply(s, step), w, peer)
  {
    if w in s.phases && s.phases[w].Refreshing() {
      if step.ClaimBatch? {
        FreshBatch(s, step, s.phases[w].through);
      } else if step.Settle? {
        SettleStep(s, step, w, peer);
      }
    }
  }

  /** A batch is claimed without a receipt, so it cannot hold a receipted message. */
  lemma FreshBatch(s: State, step: Step, through: MessageId)
    requires Enabled(s, step) && step.ClaimBatch? && through in s.receipts
    ensures !Holds(Apply(s, step).phases[step.worker].rest, through)
  {
    var pending := Pending(s.archive, s.receipts, CONVERSATION);
    assert forall i :: 0 <= i < |pending| ==> pending[i] in pending;
  }

  lemma SettleStep(s: State, step: Step, w: WorkerId, peer: WorkerId)
    requires WorkerOk(s, w, peer) && w != peer && Enabled(s, step) && step == Settle(peer)
    ensures WorkerOk(Apply(s, step), w, peer)
  {
    var rest := s.phases[peer].rest;
    assert w in s.phases && s.phases[w].Refreshing() && rest[0].id == s.phases[w].through ==>
        Holds(rest, s.phases[w].through);
    assert forall id :: Holds(rest[1..], id) ==> Holds(rest, id);
  }

  lemma TwoKept(s: State, step: Step)
    requires TwoOk(s) && Enabled(s, step) && (step.Arrive? || step.worker <= 1)
    ensures TwoOk(Apply(s, step))
  {
    KnownKept(s, step);
    if step.Arrive? || step.worker == 0 { OwnStep(s, step, 0, 1); } else { PeerStep(s, step, 0, 1); }
    if step.Arrive? || step.worker == 1 { OwnStep(s, step, 1, 0); } else { PeerStep(s, step, 1, 0); }
  }

  // ----- every reachable state

  ghost predicate Reachable(s: State, n: nat) {
    exists steps :: Run(INITIAL, steps) == Some(s) && Staffed(steps, n)
  }

  lemma {:induction false} RunKeepsOne(steps: seq<Step>)
    requires Run(INITIAL, steps).Some? && Staffed(steps, 1)
    ensures OneOk(Run(INITIAL, steps).value)
    decreases |steps|
  {
    if steps != [] {
      var most := steps[..|steps| - 1];
      RunKeepsOne(most);
      OneKept(Run(INITIAL, most).value, steps[|steps| - 1]);
    }
  }

  lemma {:induction false} RunKeepsTwo(steps: seq<Step>)
    requires Run(INITIAL, steps).Some? && Staffed(steps, 2)
    ensures TwoOk(Run(INITIAL, steps).value)
    decreases |steps|
  {
    if steps != [] {
      var most := steps[..|steps| - 1];
      RunKeepsTwo(most);
      TwoKept(Run(INITIAL, most).value, steps[|steps| - 1]);
    }
  }

  /** Whenever the marker is empty, every ingested message was in the snapshot of a
      completed refresh. */
  ghost predicate AllRefreshed(s: State) {
    s.dirty.None? ==> Ingested(s.receipts) <= s.covered
  }

  /** Whenever the marker is empty, the stored summary has seen every ingested message. */
  ghost predicate SummaryCurrent(s: State) {
    s.dirty.None? ==> Ingested(s.receipts) <= s.summary
  }

  /** With at most two workers no refresh is lost. */
  lemma NoRefreshIsLost(s: State)
    requires Reachable(s, 2)
    ensures AllRefreshed(s)
  {
    var steps :| Run(INITIAL, steps) == Some(s) && Staffed(steps, 2);
    RunKeepsTwo(steps);
  }

  /** With one worker the stored summary is current as well. */
  lemma SummaryIsCurrent(s: State)
    requires Reachable(s, 1)
    ensures SummaryCurrent(s)
  {
    var steps :| Run(INITIAL, steps) == Some(s) && Staffed(steps, 1);
    RunKeepsOne(steps);
  }

  // ----- why not more

  lemma Next(s: State, step: Step, t: State, n: nat)
    requires Reachable(s, n) && Enabled(s, step) && Apply(s, step) == t && (step.Arrive? || step.worker < n)
    ensures Reachable(t, n)
  {
    var steps :| Run(INITIAL, steps) == Some(s) && Staffed(steps, n);
    var more := steps + [step];
    assert more[..|steps|] == steps;
    assert Run(INITIAL, more) == Some(t);
  }

  const FIRST := Message(1, CONVERSATION, true)
  const SECOND := Message(2, CONVERSATION, true)
  const ONE: Receipts := map[1 := Outcome.Ingested]
  const BOTH: Receipts := map[1 := Outcome.Ingested, 2 := Outcome.Ingested]

  /** Message 1 is archived; nothing was refreshed yet. */
  function Early(phases: map<WorkerId, Phase>, receipts: Receipts, status: Status, dirty: Option<MessageId>): State {
    State([FIRST], receipts, status, dirty, {}, {}, phases)
  }

  /** Message 2 arrived after worker 0 read the archive for its refresh. */
  function Late(phases: map<WorkerId, Phase>, receipts: Receipts, status: Status, dirty: Option<MessageId>): State {
    State([FIRST, SECOND], receipts, status, dirty, {}, {}, phases)
  }

  /** Both messages are ingested. */
  function Done(phases: map<WorkerId, Phase>, dirty: Option<MessageId>, covered: set<MessageId>,
                summary: set<MessageId>): State
  {
    State([FIRST, SECOND], BOTH, Idle, dirty, covered, summary, phases)
  }

  lemma Rows()
    ensures Pending([FIRST], map[], CONVERSATION) == [FIRST]
    ensures Pending([FIRST, SECOND], ONE, CONVERSATION) == [SECOND]
    ensures Contents([FIRST]) == {1} && Contents([FIRST, SECOND]) == {1, 2}
  {
    assert [FIRST][1..] == [] && [FIRST, SECOND][1..] == [SECOND] && [SECOND][1..] == [];
    assert Pending([SECOND], ONE, CONVERSATION) == [SECOND] + Pending([], ONE, CONVERSATION);
    assert FIRST in [FIRST] && FIRST in [FIRST, SECOND] && SECOND in [FIRST, SECOND];
  }

  lemma ClaimFirst(phases: map<WorkerId, Phase>, status: Status, w: WorkerId, n: nat)
    requires Reachable(Early(phases, map[], status, None), n) && w !in phases && w < n
    ensures Reachable(Early(phases[w := Batching([FIRST], true)], map[], Processing, None), n)
  {
    Rows();
    assert [FIRST][..1] == [FIRST];
    var t := Early(phases[w := Batching([FIRST], false)], map[], Processing, None);
    Next(Early(phases, map[], status, None), ClaimBatch(w, 25), t, n);
    Next(t, Renew(w), Early(phases[w := Batching([FIRST], true)], map[], Processing, None), n);
  }

  lemma SettleOnly(s: State, w: WorkerId, m: Message, t: State, n: nat)
    requires Reachable(s, n) && w in s.phases && s.phases[w] == Batching([m], true) && m.content && w < n
    requires t == s.(receipts := if m.id in s.receipts then s.receipts else s.receipts[m.id := Outcome.Ingested],
                     dirty := Some(m.id), phases := s.phases[w := Batching([], false)])
    ensures Reachable(t, n)
  {
    assert [m][1..] == [];
    Next(s, Settle(w), t, n);
  }

  /** Worker 0 ingests message 1 while the workers in `stalled` wait. */
  lemma IngestFirst(stalled: map<WorkerId, Phase>, status: Status, n: nat)
    requires Reachable(Early(stalled, map[], status, None), n) && 0 !in stalled && 0 < n
    ensures Reachable(Early(stalled, ONE, Idle, Some(1)), n)
  {
    ClaimFirst(stalled, status, 0, n);
    var s := Early(stalled[0 := Batching([FIRST], true)], map[], Processing, None);
    var t := Early(stalled[0 := Batching([], false)], ONE, Processing, Some(1));
    assert s.phases[0 := Batching([], false)] == t.phases && map[][1 := Outcome.Ingested] == ONE;
    SettleOnly(s, 0, FIRST, t, n);
    assert Without(t.phases, 0) == stalled;
    Next(t, Finish(0), Early(stalled, ONE, Idle, Some(1)), n);
  }

  /** Worker 0 reads the archive for a refresh through message 1; then 2 arrives. */
  lemma ReadBeforeSecond(stalled: map<WorkerId, Phase>, n: nat)
    requires Reachable(Early(stalled, ONE, Idle, Some(1)), n) && 0 !in stalled && 0 < n
    ensures Reachable(Late(stalled[0 := Read(1, {1})], ONE, Idle, Some(1)), n)
  {
    Rows();
    var s, t := Early(stalled, ONE, Idle, Some(1)), Early(stalled[0 := Claimed(1)], ONE, Idle, Some(1));
    Next(s, ClaimRefresh(0), t, n);
    s, t := t, Early(stalled[0 := Read(1, {1})], ONE, Idle, Some(1));
    Next(s, ReadArchive(0), t, n);
    Next(t, Arrive(1, SECOND), Late(stalled[0 := Read(1, {1})], ONE, Idle, Some(1)), n);
  }

  lemma ClaimSecond(phases: map<WorkerId, Phase>, n: nat)
    requires Reachable(Late(phases, ONE, Idle, Some(1)), n) && 1 !in phases && 1 < n
    ensures Reachable(Late(phases[1 := Batching([SECOND], true)], ONE, Processing, Some(1)), n)
  {
    Rows();
    assert [SECOND][..1] == [SECOND];
    var t := Late(phases[1 := Batching([SECOND], false)], ONE, Processing, Some(1));
    Next(Late(phases, ONE, Idle, Some(1)), ClaimBatch(1, 25), t, n);
    Next(t, Renew(1), Late(phases[1 := Batching([SECOND], true)], ONE, Processing, Some(1)), n);
  }

  /** Worker 1 ingests message 2. */
  lemma IngestSecond(phases: map<WorkerId, Phase>, n: nat)
    requires Reachable(Late(phases, ONE, Idle, Some(1)), n) && 1 !in phases && 1 < n
    ensures Reachable(Done(phases, Some(2), {}, {}), n)
  {
    ClaimSecond(phases, n);
    var s := Late(phases[1 := Batching([SECOND], true)], ONE, Processing, Some(1));
    var t := Late(phases[1 := Batching([], false)], BOTH, Processing, Some(2));
    assert s.phases[1 := Batching([], false)] == t.phases && ONE[2 := Outcome.Ingested] == BOTH;
    SettleOnly(s, 1, SECOND, t, n);
    assert Without(t.phases, 1) == phases;
    Next(t, Finish(1), Done(phases, Some(2), {}, {}), n);
  }

  /** Both messages are ingested, and worker 0 still holds a snapshot without message 2. */
  lemma ReachDone(stalled: map<WorkerId, Phase>, status: Status, n: nat)
    requires Reachable(Early(stalled, map[], status, None), n) && 0 !in stalled && 1 !in stalled && 1 < n
    ensures Reachable(Done(stalled[0 := Read(1, {1})], Some(2), {}, {}), n)
  {
    IngestFirst(stalled, status, n);
    ReadBeforeSecond(stalled, n);
    IngestSecond(stalled[0 := Read(1, {1})], n);
  }

  lemma ReachArrived(n: nat)
    ensures Reachable(Early(map[], map[], Idle, None), n)
  {
    assert Run(INITIAL, []) == Some(INITIAL) && Staffed([], n);
    Next(INITIAL, Arrive(0, FIRST), Early(map[], map[], Idle, None), n);
  }

  /** Worker 1 refreshes both messages and clears the marker. */
  lemma RefreshBoth(phases: map<WorkerId, Phase>, n: nat)
    requires Reachable(Done(phases, Some(2), {}, {}), n) && 1 !in phases && 1 < n
    ensures Reachable(Done(phases, None, {1, 2}, {1, 2}), n)
  {
    ReadBoth(phases, n);
    var s := Done(phases[1 := Read(2, {1, 2})], Some(2), {}, {});
    var t := Done(phases[1 := Refreshed(2)], Some(2), {1, 2}, {1, 2});
    assert s.phases[1 := Refreshed(2)] == t.phases;
    Next(s, CommitRefresh(1), t, n);
    assert Without(t.phases, 1) == phases;
    Next(t, MarkSucceeded(1), Done(phases, None, {1, 2}, {1, 2}), n);
  }

  lemma ReadBoth(phases: map<WorkerId, Phase>, n: nat)
    requires Reachable(Done(phases, Some(2), {}, {}), n) && 1 !in phases && 1 < n
    ensures Reachable(Done(phases[1 := Read(2, {1, 2})], Some(2), {}, {}), n)
  {
    Rows();
    var s, t := Done(phases, Some(2), {}, {}), Done(phases[1 := Claimed(2)], Some(2), {}, {});
    Next(s, ClaimRefresh(1), t, n);
    s, t := t, Done(phases[1 := Read(2, {1, 2})], Some(2), {}, {});
    assert s.phases[1 := Read(2, {1, 2})] == t.phases;
    Next(s, ReadArchive(1), t, n);
  }

  /** Two workers can leave a stale summary: worker 1 refreshes both messages and clears
      the marker, and only then does worker 0 save the summary it read before message 2. */
  lemma TwoWorkersLeaveAStaleSummary(n: nat) returns (s: State)
    requires n >= 2
    ensures Reachable(s, n) && s.dirty.None? && 2 in Ingested(s.receipts) && 2 !in s.summary
  {
    var phases: map<WorkerId, Phase> := map[];
    var read := phases[0 := Read(1, {1})];
    ReachArrived(n);
    ReachDone(phases, Idle, n);
    RefreshBoth(read, n);
    s := Done(read[0 := Refreshed(1)], None, {1, 2}, {1});
    Next(Done(read, None, {1, 2}, {1, 2}), CommitRefresh(0), s, n);
  }

  /** Three workers can lose a refresh. Worker 2 stalls in a batch [1] until its lease
      runs out; worker 0 ingests 1 and reads for a refresh; worker 1 ingests 2; then
      worker 2 receipts 1 once more, so the marker is back where worker 0 claimed it. */
  lemma ThreeWorkersLoseARefresh(n: nat) returns (s: State)
    requires n >= 3
    ensures Reachable(s, n) && s.dirty.None? && 2 in Ingested(s.receipts) && 2 !in s.covered
  {
    var phases: map<WorkerId, Phase> := map[];
    var stalled := phases[2 := Batching([FIRST], true)];
    ReachArrived(n);
    ClaimFirst(phases, Idle, 2, n);
    ReachDone(stalled, Processing, n);
    var read := stalled[0 := Read(1, {1})];
    var t := Done(read[2 := Batching([], false)], Some(1), {}, {});
    SettleOnly(Done(read, Some(2), {}, {}), 2, FIRST, t, n);
    s, t := t, Done(t.phases[0 := Refreshed(1)], Some(1), {1}, {1});
    Next(s, CommitRefresh(0), t, n);
    s := Done(Without(t.phases, 0), None, {1}, {1});
    Next(t, MarkSucceeded(0), s, n);
  }

  // ----- exactly how many workers are safe

  /** No refresh is ever lost exactly with at most two workers. */
  lemma RefreshesAreSafeIff(n: nat)
    ensures (forall s :: Reachable(s, n) ==> AllRefreshed(s)) <==> n <= 2
  {
    if n <= 2 {
      forall s | Reachable(s, n) ensures AllRefreshed(s) {
        MoreStaff(s, n, 2);
        NoRefreshIsLost(s);
      }
    } else {
      var s := ThreeWorkersLoseARefresh(n);
      assert !AllRefreshed(s);
    }
  }

  /** The summary is always current exactly with at most one worker. */
  lemma SummaryIsSafeIff(n: nat)
    ensures (forall s :: Reachable(s, n) ==> SummaryCurrent(s)) <==> n <= 1
  {
    if n <= 1 {
      forall s | Reachable(s, n) ensures SummaryCurrent(s) {
        MoreStaff(s, n, 1);
        SummaryIsCurrent(s);
      }
    } else {
      var s := TwoWorkersLeaveAStaleSummary(n);
      assert !SummaryCurrent(s);
    }
  }

  lemma MoreStaff(s: State, n: nat, more: nat)
    requires Reachable(s, n) && n <= more
    ensures Reachable(s, more)
  {
    var steps :| Run(INITIAL, steps) == Some(s) && Staffed(steps, n);
    assert Staffed(steps, more);
  }
}
