/** What every run of the generation protocol keeps. */
module GenerationSafety {
  import opened Basics
  import opened GenerationProtocol

  // ----- the invariant

  /** One ACTIVE generation and it is the pointed one, at most one BUILDING,
      BUILDING exactly while leased, progress within the total, banks not shared. */
  ghost predicate RegistryOk(r: Registry) {
    && (r.active.None? ==> r.gens == map[])
    && (r.active.Some? ==> r.Pointed())
    && (forall g :: g in r.gens ==> GenerationOk(r, g))
    && (forall g, h | g in r.gens && h in r.gens ::
          r.gens[g].status == Building && r.gens[h].status == Building ==> g == h)
    && (forall g, h | g in r.gens && h in r.gens :: r.gens[g].bank == r.gens[h].bank ==> g == h)
  }

  ghost predicate GenerationOk(r: Registry, g: GenerationId)
    requires g in r.gens
  {
    && (r.gens[g].status == Active ==> r.active == Some(g))
    && (r.gens[g].status == Building <==> r.gens[g].lease.Some?)
    && r.gens[g].replayed <= r.gens[g].total
    && g in r.usedGens && r.gens[g].bank in r.usedBanks
  }

  ghost predicate LockOk(lock: Option<ProcessId>, procs: map<ProcessId, Process>) {
    && (lock.Some? ==> lock.value in procs)
    && forall p :: p in procs ==> (procs[p].HoldsLock() <==> lock == Some(p))
  }

  /** Every rebuild owns its generation and bank, and neither is the pointed one. */
  ghost predicate Owns(r: Registry, gen: GenerationId, bank: BankId) {
    && gen in r.usedGens && bank in r.usedBanks && r.active != Some(gen)
    && (gen in r.gens ==> r.gens[gen].bank == bank)
    && (forall g :: g in r.gens && r.gens[g].bank == bank ==> g == gen)
  }

  ghost predicate Disjoint(procs: map<ProcessId, Process>) {
    forall p, q | p in procs && q in procs && procs[p].Rebuilds() && procs[q].Rebuilds() ::
      procs[p].gen == procs[q].gen ==> p == q
  }

  ghost predicate IsContent(archive: seq<Message>, message: Message) {
    message in archive && message.text.Content?
  }

  /** What a process may rely on about the registry while it is at its await point. */
  ghost predicate ProcessOk(archive: seq<Message>, r: Registry, process: Process) {
    && r.active.Some?
    && (process.Rebuilds() ==> Owns(r, process.gen, process.bank))
    && match process
       case Retaining(message, bank, sent) =>
         IsContent(archive, message) && r.Pointed() && bank == r.ActiveBank()
       case Retained(message) => IsContent(archive, message)
       case Opening(gen, _) => r.Running(gen) ==> r.gens[gen].replayed == 0
       case Replaying(gen, _, offset, batch, done) =>
         done <= |batch| && (r.Running(gen) ==> r.gens[gen].replayed == offset)
       case Replayed(gen, _, offset) => r.Running(gen) ==> r.gens[gen].replayed == offset
       case Switching(gen, _, total, offset, batch, done, caughtUp) =>
         gen in r.gens && offset <= total && done <= |batch| && (caughtUp ==> batch == [])
       case Cleaning(gen, bank) =>
         && gen in r.gens && r.gens[gen].bank == bank && r.active != Some(gen)
         && r.gens[gen].status in {Failed, Superseded}
  }

  ghost predicate ProcessesOk(archive: seq<Message>, r: Registry, procs: map<ProcessId, Process>) {
    forall p :: p in procs ==> ProcessOk(archive, r, procs[p])
  }

  /** The part of the invariant that needs no assumption about archive order. */
  ghost predicate Structure(s: State) {
    && RegistryOk(s.reg) && LockOk(s.lock, s.procs) && Disjoint(s.procs)
    && ProcessesOk(s.archive, s.reg, s.procs)
  }

  /** The messages a worker may retain. */
  function Contents(archive: seq<Message>): set<MessageId> {
    set m | m in archive && m.text.Content? :: m.id
  }

  ghost predicate AmongFirst(rows: seq<MessageId>, n: nat, m: MessageId) {
    exists k :: 0 <= k < n && k < |rows| && rows[k] == m
  }

  /** In the bank, or in the part of the page that is still to be stored. */
  ghost predicate Kept(bank: set<MessageId>, batch: seq<MessageId>, done: nat, m: MessageId) {
    m in bank || exists j :: done <= j < |batch| && batch[j] == m
  }

  /** A replay that has read the first `offset + |batch|` rows has not lost any due one. */
  ghost predicate ReplayOk(rows: seq<MessageId>, due: set<MessageId>, bank: set<MessageId>, offset: nat,
                           batch: seq<MessageId>, done: nat)
  {
    forall m :: m in due && AmongFirst(rows, offset + |batch|, m) ==> Kept(bank, batch, done, m)
  }

  /** What a process has achieved in the bank it writes to. A rebuild whose
      generation was failed by lease recovery before it took the lock owes nothing. */
  ghost predicate ProgressOk(rows: seq<MessageId>, due: set<MessageId>, r: Registry,
                             banks: map<BankId, set<MessageId>>, process: Process)
  {
    match process
    case Retaining(message, bank, sent) => sent ==> message.id in Bank(banks, bank)
    case Replaying(gen, bank, offset, batch, done) =>
      r.Running(gen) ==> ReplayOk(rows, due, Bank(banks, bank), offset, batch, done)
    case Replayed(gen, bank, offset) =>
      r.Running(gen) ==> ReplayOk(rows, due, Bank(banks, bank), offset, [], 0)
    case _ => true
  }

  ghost predicate AllProgressOk(archive: seq<Message>, r: Registry, banks: map<BankId, set<MessageId>>,
                                procs: map<ProcessId, Process>)
  {
    forall p :: p in procs ==> ProgressOk(Visible(archive), Contents(archive), r, banks, procs[p])
  }

  /** The backend confirmed the message to a worker: it is receipted, or about to be. */
  ghost predicate Confirmed(receipts: map<MessageId, Outcome>, procs: map<ProcessId, Process>, m: MessageId) {
    || (m in receipts && receipts[m] == Ingested)
    || exists p :: p in procs && procs[p].Retained? && procs[p].message.id == m
  }

  /** Whatever the backend confirmed is archived and is in the bank the registry points to. */
  ghost predicate Delivered(s: State) {
    forall m :: Confirmed(s.receipts, s.procs, m) ==>
      m in Contents(s.archive) && s.reg.Pointed() && m in Bank(s.banks, s.reg.ActiveBank())
  }

  /** A switch keeps `m` if it has read it. It owes only what was confirmed before it took
      the lock: what arrives later can only be confirmed after it released the lock. */
  ghost predicate SwitchOk(rows: seq<MessageId>, banks: map<BankId, set<MessageId>>, process: Process, m: MessageId) {
    process.Switching? && (process.caughtUp || AmongFirst(rows, process.Cursor(), m)) ==>
      Kept(Bank(banks, process.bank), process.batch, process.done, m)
  }

  ghost predicate SwitchesOk(s: State) {
    forall p, m :: p in s.procs && Confirmed(s.receipts, s.procs, m) ==>
      SwitchOk(Visible(s.archive), s.banks, s.procs[p], m)
  }

  ghost predicate Progress(s: State) {
    AllProgressOk(s.archive, s.reg, s.banks, s.procs) && Delivered(s) && SwitchesOk(s)
  }

  ghost predicate Inv(s: State) {
    Structure(s) && Progress(s)
  }

  /** The arrival sorts before the offset of a running rebuild that has not taken the
      registry lock yet, so the rebuild will not read it although a worker may still
      retain it into the old bank. */
  ghost predicate Overtaken(s: State, step: Step) {
    && step.Arrive? && step.position <= |s.archive| && step.message.text.Content?
    && exists p :: OvertakenBy(s, |Visible(s.archive[..step.position])|, p)
  }

  ghost predicate OvertakenBy(s: State, row: nat, p: ProcessId) {
    && p in s.procs && (s.procs[p].Replaying? || s.procs[p].Replayed?)
    && s.reg.Running(s.procs[p].gen) && row < s.procs[p].Cursor()
  }

  // ----- archive order

  lemma {:induction false} VisibleConcat(a: seq<Message>, b: seq<Message>)
    ensures Visible(a + b) == Visible(a) + Visible(b)
  {
    if a == [] {
      assert a + b == b;
    } else {
      VisibleConcat(a[1..], b);
      assert (a + b)[1..] == a[1..] + b;
    }
  }

  lemma {:induction false} VisibleContent(archive: seq<Message>, message: Message)
    requires message in archive && message.text.Content?
    ensures message.id in Visible(archive)
  {
    if archive[0] != message {
      VisibleContent(archive[1..], message);
    }
  }

  /** The positions of the rows the query returns: all but the blank ones, in archive order. */
  ghost predicate AreVisibleAt(archive: seq<Message>, at: seq<nat>) {
    && (forall i, j :: 0 <= i < j < |at| ==> at[i] < at[j])
    && (forall i :: 0 <= i < |at| ==> at[i] < |archive|)
    && (forall k :: 0 <= k < |archive| ==> (k in at <==> archive[k].text != Blank))
  }

  /** The replay query returns every row with something besides spaces, and only those, in
      archive order. */
  lemma {:induction false} VisibleIsArchiveOrder(archive: seq<Message>) returns (at: seq<nat>)
    ensures AreVisibleAt(archive, at) && |Visible(archive)| == |at|
    ensures forall i :: 0 <= i < |at| ==> Visible(archive)[i] == archive[at[i]].id
  {
    if archive == [] {
      at := [];
    } else {
      var n := |archive| - 1;
      at := VisibleIsArchiveOrder(archive[..n]);
      assert archive == archive[..n] + [archive[n]];
      VisibleConcat(archive[..n], [archive[n]]);
      assert Visible([archive[n]]) == if archive[n].text.Blank? then [] else [archive[n].id];
      if !archive[n].text.Blank? {
        at := at + [n];
      }
    }
  }

  lemma {:induction false} VisibleArchived(archive: seq<Message>, id: MessageId)
    requires id in Visible(archive)
    ensures exists m :: m in archive && m.id == id
  {
    if archive[0].text.Blank? || archive[0].id != id {
      VisibleArchived(archive[1..], id);
      var m :| m in archive[1..] && m.id == id;
      assert m in archive;
    } else {
      assert archive[0] in archive;
    }
  }

  /** An arrival only pushes rows back: what is among the first `n` rows afterwards was
      so before, unless it is the new message itself. */
  lemma ArrivalShifts(archive: seq<Message>, position: nat, message: Message, n: nat, m: MessageId)
    requires position <= |archive|
    requires AmongFirst(Visible(archive[..position] + [message] + archive[position..]), n, m)
    ensures AmongFirst(Visible(archive), n, m)
            || (m == message.id && !message.text.Blank? && |Visible(archive[..position])| < n)
  {
    ArrivalRows(archive, position, message);
    InsertShifts(Visible(archive[..position]), Visible([message]), Visible(archive[position..]), n, m);
  }

  lemma InsertShifts(before: seq<MessageId>, new_: seq<MessageId>, after: seq<MessageId>, n: nat, m: MessageId)
    requires |new_| <= 1 && AmongFirst(before + new_ + after, n, m)
    ensures AmongFirst(before + after, n, m) || (|new_| == 1 && m == new_[0] && |before| < n)
  {
    var rows, k :| rows == before + new_ + after && 0 <= k < n && k < |rows| && rows[k] == m;
    var was := if k < |before| then k else k - |new_|;
    assert k < |before| || k >= |before| + |new_| ==> (before + after)[was] == m;
  }

  lemma VisibleOfThree(a: seq<Message>, b: seq<Message>, c: seq<Message>)
    ensures Visible(a + b + c) == Visible(a) + Visible(b) + Visible(c)
  {
    VisibleConcat(a + b, c);
    VisibleConcat(a, b);
  }

  lemma ArrivalRows(archive: seq<Message>, position: nat, message: Message)
    requires position <= |archive|
    ensures var a, b := archive[..position], archive[position..];
            && Visible(archive) == Visible(a) + Visible(b)
            && Visible(a + [message] + b) == Visible(a) + Visible([message]) + Visible(b)
  {
    var a, b := archive[..position], archive[position..];
    assert archive == a + b;
    VisibleConcat(a, b);
    VisibleOfThree(a, [message], b);
  }

  // ----- one step keeps the structure

  /** The lock after a process moves from holding (or not) to holding (or not). */
  ghost predicate LockMoves(before: Option<ProcessId>, after: Option<ProcessId>, pid: ProcessId,
                            process: Process)
  {
    if process.HoldsLock() then after == Some(pid) && (before.None? || before == Some(pid))
    else after == if before == Some(pid) then None else before
  }

  lemma PutKeeps(s: State, lock: Option<ProcessId>, pid: ProcessId, process: Process)
    requires LockOk(s.lock, s.procs) && LockMoves(s.lock, lock, pid, process)
    requires Disjoint(s.procs) && ProcessesOk(s.archive, s.reg, s.procs)
    requires ProcessOk(s.archive, s.reg, process)
    requires process.Rebuilds() ==>
               forall p :: p in s.procs && p != pid && s.procs[p].Rebuilds() ==> s.procs[p].gen != process.gen
    ensures LockOk(lock, s.procs[pid := process]) && Disjoint(s.procs[pid := process])
    ensures ProcessesOk(s.archive, s.reg, s.procs[pid := process])
  {
  }

  lemma ExitKeeps(s: State, pid: ProcessId)
    requires LockOk(s.lock, s.procs) && Disjoint(s.procs)
    ensures LockOk(Exit(s, pid).lock, Exit(s, pid).procs) && Disjoint(Exit(s, pid).procs)
  {
  }

  /** A rebuild's own row may change while other processes wait. */
  lemma OwnRowKeeps(archive: seq<Message>, r: Registry, gen: GenerationId, row: Generation, other: Process)
    requires RegistryOk(r) && r.Running(gen) && ProcessOk(archive, r, other)
    requires row.bank == r.gens[gen].bank && row.status in {Building, Failed}
    requires other.Rebuilds() ==> other.gen != gen
    ensures ProcessOk(archive, r.Update(gen, row), other)
  {
  }

  lemma DataKeepsStructure(s: State, step: Step)
    requires Structure(s) && Enabled(s, step)
    requires step.Arrive? || step.RecordIgnored? || step.DeleteBank?
    ensures Structure(Apply(s, step))
  {
  }

  lemma LocalKeepsStructure(s: State, pid: ProcessId, process: Process)
    requires Structure(s) && pid in s.procs && ProcessOk(s.archive, s.reg, process)
    requires process.HoldsLock() == s.procs[pid].HoldsLock()
    requires process.Rebuilds() ==> s.procs[pid].Rebuilds() && s.procs[pid].gen == process.gen
    ensures Structure(Put(s, pid, process))
  {
    PutKeeps(s, s.lock, pid, process);
  }

  lemma RecoverKeepsRegistry(r: Registry, now: Time)
    requires RegistryOk(r)
    ensures RegistryOk(r.Recover(now))
  {
    var after := r.Recover(now);
    assert forall g :: g in r.gens ==> g in after.gens && after.gens[g].bank == r.gens[g].bank;
    forall g | g in after.gens ensures GenerationOk(after, g) {
      assert GenerationOk(r, g);
    }
  }

  lemma RecoverKeepsProcess(archive: seq<Message>, r: Registry, now: Time, process: Process)
    requires RegistryOk(r) && ProcessOk(archive, r, process)
    ensures ProcessOk(archive, r.Recover(now), process)
  {
    var after := r.Recover(now);
    assert forall g :: g in r.gens ==> g in after.gens && after.gens[g].bank == r.gens[g].bank;
  }

  lemma RecoverKeepsStructure(s: State, now: Time)
    requires Structure(s)
    ensures Structure(Apply(s, Recover(now)))
  {
    RecoverKeepsRegistry(s.reg, now);
    forall p | p in s.procs ensures ProcessOk(s.archive, s.reg.Recover(now), s.procs[p]) {
      RecoverKeepsProcess(s.archive, s.reg, now, s.procs[p]);
    }
  }

  lemma StartKeepsStructure(s: State, step: Step)
    requires Structure(s) && Enabled(s, step) && step.Start?
    ensures Structure(Apply(s, step))
  {
    var r := Apply(s, step).reg;
    assert RegistryOk(r);
    forall p | p in s.procs ensures ProcessOk(s.archive, r, s.procs[p]) {
      assert ProcessOk(s.archive, s.reg, s.procs[p]);
    }
    PutKeeps(s.(reg := r), s.lock, step.pid, Opening(step.gen, step.bank));
  }

  lemma RecordProgressKeepsStructure(s: State, step: Step)
    requires Structure(s) && Enabled(s, step) && step.RecordProgress?
    ensures Structure(Apply(s, step))
  {
    var after := Apply(s, step);
    var gen := s.procs[step.pid].gen;
    assert ProcessOk(s.archive, s.reg, s.procs[step.pid]);
    assert RegistryOk(after.reg);
    forall p | p in after.procs ensures ProcessOk(s.archive, after.reg, after.procs[p]) {
      assert p in s.procs;
      if p != step.pid {
        OwnRowKeeps(s.archive, s.reg, gen, after.reg.gens[gen], s.procs[p]);
      }
    }
  }

  /** The registry write of a switch. */
  function Switched(r: Registry, gen: GenerationId, row: Generation): Registry {
    (if r.active.Some? && r.active.value != gen then r.Retire(r.active.value, Superseded) else r)
      .Update(gen, row).(active := Some(gen))
  }

  lemma SwitchKeepsRegistry(r: Registry, gen: GenerationId, row: Generation)
    requires RegistryOk(r) && gen in r.gens && r.active.Some? && r.active.value != gen
    requires row.bank == r.gens[gen].bank && row.status == Active && row.lease.None? && row.replayed <= row.total
    ensures RegistryOk(Switched(r, gen, row))
  {
    var previous := r.active.value;
    var after := Switched(r, gen, row);
    assert after.gens == r.gens[previous := r.gens[previous].(status := Superseded, lease := None)][gen := row];
    forall g | g in after.gens ensures GenerationOk(after, g) {
      assert GenerationOk(r, g);
    }
  }

  lemma SwitchKeepsProcess(archive: seq<Message>, r: Registry, gen: GenerationId, row: Generation, other: Process)
    requires RegistryOk(r) && gen in r.gens && r.active.Some? && r.active.value != gen
    requires row.bank == r.gens[gen].bank && row.status == Active
    requires ProcessOk(archive, r, other) && !other.HoldsLock() && (other.Rebuilds() ==> other.gen != gen)
    ensures ProcessOk(archive, Switched(r, gen, row), other)
  {
    var previous := r.active.value;
    var after := Switched(r, gen, row);
    assert after.gens == r.gens[previous := r.gens[previous].(status := Superseded, lease := None)][gen := row];
  }

  lemma CommitKeepsStructure(s: State, step: Step)
    requires Structure(s) && Enabled(s, step) && step.CommitSwitch?
    ensures Structure(Apply(s, step))
  {
    var process := s.procs[step.pid];
    var row := Generation(process.bank, Active, process.total, process.offset, None);
    assert ProcessOk(s.archive, s.reg, process);
    SwitchKeepsRegistry(s.reg, process.gen, row);
    ExitKeeps(s, step.pid);
    forall p | p in s.procs && p != step.pid
      ensures ProcessOk(s.archive, Switched(s.reg, process.gen, row), s.procs[p])
    {
      assert !s.procs[p].HoldsLock();
      SwitchKeepsProcess(s.archive, s.reg, process.gen, row, s.procs[p]);
    }
  }

  lemma MarkFailedKeepsStructure(s: State, step: Step)
    requires Structure(s) && Enabled(s, step) && step.MarkFailed?
    ensures Structure(Apply(s, step))
  {
    var after := Apply(s, step);
    var gen := s.procs[step.pid].gen;
    ExitKeeps(s, step.pid);
    if s.reg.Running(gen) {
      assert RegistryOk(after.reg);
      forall p | p in after.procs ensures ProcessOk(s.archive, after.reg, after.procs[p]) {
        assert p in s.procs && p != step.pid;
        OwnRowKeeps(s.archive, s.reg, gen, after.reg.gens[gen], s.procs[p]);
      }
    }
  }

  lemma FinishCleanupKeepsStructure(s: State, step: Step)
    requires Structure(s) && Enabled(s, step) && step.FinishCleanup?
    ensures Structure(Apply(s, step))
  {
    var after := Apply(s, step);
    assert ProcessOk(s.archive, s.reg, s.procs[step.pid]);
    assert RegistryOk(after.reg);
    ExitKeeps(s, step.pid);
    forall p | p in after.procs ensures ProcessOk(s.archive, after.reg, after.procs[p]) {
      assert p in s.procs && p != step.pid && ProcessOk(s.archive, s.reg, s.procs[p]);
      assert !s.procs[p].HoldsLock();
    }
  }

  lemma ReadStepKeepsStructure(s: State, step: Step)
    requires Structure(s) && Enabled(s, step) && (step.CreateClean? || step.Fetch?)
    ensures Structure(Apply(s, step))
  {
    assert ProcessOk(s.archive, s.reg, s.procs[step.pid]);
    LocalKeepsStructure(s, step.pid, Apply(s, step).procs[step.pid]);
  }

  lemma StoreStepKeepsStructure(s: State, step: Step)
    requires Structure(s) && Enabled(s, step) && (step.Replay? || step.CatchUp? || step.Send?)
    ensures Structure(Apply(s, step))
  {
    assert ProcessOk(s.archive, s.reg, s.procs[step.pid]);
    LocalKeepsStructure(s, step.pid, Apply(s, step).procs[step.pid]);
  }

  lemma LockStepKeepsStructure(s: State, step: Step)
    requires Structure(s) && Enabled(s, step) && (step.BeginRetain? || step.BeginCleanup?)
    ensures Structure(Apply(s, step))
  {
    var after := Apply(s, step);
    PutKeeps(s, after.lock, step.pid, after.procs[step.pid]);
  }

  lemma RelockStepKeepsStructure(s: State, step: Step)
    requires Structure(s) && Enabled(s, step) && (step.BeginSwitch? || step.ReturnRetain?)
    ensures Structure(Apply(s, step))
  {
    var after := Apply(s, step);
    assert ProcessOk(s.archive, s.reg, s.procs[step.pid]);
    PutKeeps(s, after.lock, step.pid, after.procs[step.pid]);
  }

  lemma ExitStepKeepsStructure(s: State, step: Step)
    requires Structure(s) && Enabled(s, step) && (step.RecordReceipt? || step.Crash?)
    ensures Structure(Apply(s, step))
  {
    ExitKeeps(s, step.pid);
  }

  lemma BootstrapKeepsStructure(s: State, step: Step)
    requires Structure(s) && Enabled(s, step) && step.Bootstrap?
    ensures Structure(Apply(s, step))
  {
    assert forall p :: p in s.procs ==> ProcessOk(s.archive, s.reg, s.procs[p]);
    assert s.procs == map[];
  }

  /** Steps that write the registry. */
  lemma RegistryStepKeepsStructure(s: State, step: Step)
    requires Structure(s) && Enabled(s, step)
    requires step.Bootstrap? || step.Recover? || step.Start? || step.RecordProgress? || step.CommitSwitch?
             || step.MarkFailed? || step.FinishCleanup?
    ensures Structure(Apply(s, step))
  {
    match step {
      case Bootstrap(_, _) => BootstrapKeepsStructure(s, step);
      case Recover(now) => RecoverKeepsStructure(s, now);
      case Start(_, _, _, _) => StartKeepsStructure(s, step);
      case RecordProgress(_, _) => RecordProgressKeepsStructure(s, step);
      case CommitSwitch(_) => CommitKeepsStructure(s, step);
      case MarkFailed(_) => MarkFailedKeepsStructure(s, step);
      case FinishCleanup(_) => FinishCleanupKeepsStructure(s, step);
    }
  }

  lemma StructureKept(s: State, step: Step)
    requires Structure(s) && Enabled(s, step)
    ensures Structure(Apply(s, step))
  {
    if step.Arrive? || step.RecordIgnored? || step.DeleteBank? {
      DataKeepsStructure(s, step);
    } else if step.RecordReceipt? || step.Crash? {
      ExitStepKeepsStructure(s, step);
    } else if step.BeginRetain? || step.BeginCleanup? {
      LockStepKeepsStructure(s, step);
    } else if step.BeginSwitch? || step.ReturnRetain? {
      RelockStepKeepsStructure(s, step);
    } else if step.CreateClean? || step.Fetch? {
      ReadStepKeepsStructure(s, step);
    } else if step.Replay? || step.CatchUp? || step.Send? {
      StoreStepKeepsStructure(s, step);
    } else {
      RegistryStepKeepsStructure(s, step);
    }
  }
}
