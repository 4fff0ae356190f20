/** No switch, failure, cleanup or crash leaves a confirmed message outside the
    bank the registry points to. */
module GenerationDelivery {
  import opened Basics
  import opened GenerationProtocol
  import opened GenerationSafety

  // ----- frames

  /** Banks that only grow, with the same rebuilds running, keep everybody's progress. */
  lemma ProgressFrame(rows: seq<MessageId>, due: set<MessageId>, r: Registry, r': Registry,
                      banks: map<BankId, set<MessageId>>, banks': map<BankId, set<MessageId>>, process: Process)
    requires ProgressOk(rows, due, r, banks, process)
    requires process.Rebuilds() && r'.Running(process.gen) ==> r.Running(process.gen)
    requires process.Rebuilds() || process.Retaining? ==>
               Bank(banks, process.bank) <= Bank(banks', process.bank)
    ensures ProgressOk(rows, due, r', banks', process)
  {
  }

  lemma SwitchFrame(rows: seq<MessageId>, banks: map<BankId, set<MessageId>>, banks': map<BankId, set<MessageId>>,
                    process: Process, m: MessageId)
    requires SwitchOk(rows, banks, process, m)
    requires process.Switching? ==> Bank(banks, process.bank) <= Bank(banks', process.bank)
    ensures SwitchOk(rows, banks', process, m)
  {
  }

  /** Removing a process or settling a retain adds nothing to what is confirmed. */
  lemma ConfirmedFrame(receipts: map<MessageId, Outcome>, procs: map<ProcessId, Process>,
                       receipts': map<MessageId, Outcome>, procs': map<ProcessId, Process>)
    requires forall m :: m in receipts' && receipts'[m] == Ingested ==> Confirmed(receipts, procs, m)
    requires forall p :: p in procs' && procs'[p].Retained? ==> p in procs && procs'[p] == procs[p]
    ensures forall m :: Confirmed(receipts', procs', m) ==> Confirmed(receipts, procs, m)
  {
  }

  /** Registry writes that keep the pointer and every running rebuild's row. */
  ghost predicate SamePointer(r: Registry, r': Registry, procs: map<ProcessId, Process>) {
    && (r.Pointed() ==> r'.Pointed() && r'.ActiveBank() == r.ActiveBank())
    && forall p :: p in procs && procs[p].Rebuilds() && r'.Running(procs[p].gen) ==> r.Running(procs[p].gen)
  }

  /** What a process that moved must have established for itself. */
  ghost predicate Moved(s: State, s': State, process: Process) {
    && !process.Retained?
    && ProgressOk(Visible(s.archive), Contents(s.archive), s'.reg, s'.banks, process)
    && forall m :: Confirmed(s.receipts, s.procs, m) ==> SwitchOk(Visible(s.archive), s'.banks, process, m)
  }

  ghost predicate Unmoved(s: State, s': State, p: ProcessId) {
    p in s.procs && p in s'.procs && s'.procs[p] == s.procs[p]
  }

  /** A step that only adds to banks, confirms nothing new and moves some processes. */
  lemma StepFrame(s: State, s': State)
    requires Progress(s) && s'.archive == s.archive && SamePointer(s.reg, s'.reg, s.procs)
    requires forall b :: Bank(s.banks, b) <= Bank(s'.banks, b)
    requires forall m :: m in s'.receipts && s'.receipts[m] == Ingested ==> Confirmed(s.receipts, s.procs, m)
    requires forall p :: p in s'.procs ==> Unmoved(s, s', p) || Moved(s, s', s'.procs[p])
    ensures Progress(s')
  {
    var rows, due := Visible(s.archive), Contents(s.archive);
    ConfirmedFrame(s.receipts, s.procs, s'.receipts, s'.procs);
    forall p | p in s'.procs ensures ProgressOk(rows, due, s'.reg, s'.banks, s'.procs[p]) {
      if Unmoved(s, s', p) {
        ProgressFrame(rows, due, s.reg, s'.reg, s.banks, s'.banks, s.procs[p]);
      }
    }
    forall p, m | p in s'.procs && Confirmed(s'.receipts, s'.procs, m)
      ensures SwitchOk(rows, s'.banks, s'.procs[p], m)
    {
      if Unmoved(s, s', p) {
        SwitchFrame(rows, s.banks, s'.banks, s.procs[p], m);
      }
    }
  }

  // ----- one step

  /** A rebuild that the arrival does not overtake still has every content row it read. */
  lemma ArriveKeepsReplay(s: State, step: Step, p: ProcessId)
    requires Progress(s) && Enabled(s, step) && step.Arrive? && !Overtaken(s, step) && p in s.procs
    ensures var after := Apply(s, step).archive;
            ProgressOk(Visible(after), Contents(after), s.reg, s.banks, s.procs[p])
  {
    var after := Apply(s, step).archive;
    var process := s.procs[p];
    assert ProgressOk(Visible(s.archive), Contents(s.archive), s.reg, s.banks, process);
    if (process.Replaying? || process.Replayed?) && s.reg.Running(process.gen) {
      assert !step.message.text.Content? || !OvertakenBy(s, |Visible(s.archive[..step.position])|, p);
      forall m | m in Contents(after) && AmongFirst(Visible(after), process.Cursor(), m)
        ensures m in Contents(s.archive) && AmongFirst(Visible(s.archive), process.Cursor(), m)
      {
        ArrivalShifts(s.archive, step.position, step.message, process.Cursor(), m);
        ContentArrives(s, step, m);
        NotYetVisible(s, step);
      }
    }
  }

  /** Only the new message itself can become content by arriving. */
  lemma ContentArrives(s: State, step: Step, m: MessageId)
    requires Enabled(s, step) && step.Arrive? && m in Contents(Apply(s, step).archive)
    ensures if m == step.message.id then step.message.text.Content? else m in Contents(s.archive)
  {
    var message :| message in Apply(s, step).archive && message.text.Content? && message.id == m;
    assert message in s.archive || message == step.message;
  }

  lemma NotYetVisible(s: State, step: Step)
    requires Enabled(s, step) && step.Arrive?
    ensures step.message.id !in Visible(s.archive)
  {
    if step.message.id in Visible(s.archive) {
      VisibleArchived(s.archive, step.message.id);
    }
  }

  lemma ArriveKept(s: State, step: Step)
    requires Progress(s) && Enabled(s, step) && step.Arrive? && !Overtaken(s, step)
    ensures Progress(Apply(s, step))
  {
    var after := Apply(s, step);
    forall p | p in s.procs
      ensures ProgressOk(Visible(after.archive), Contents(after.archive), s.reg, s.banks, s.procs[p])
    {
      ArriveKeepsReplay(s, step, p);
    }
    ArchiveGrows(s.archive, step.position, step.message);
    forall p, m | p in s.procs && Confirmed(s.receipts, s.procs, m)
      ensures SwitchOk(Visible(after.archive), s.banks, s.procs[p], m)
    {
      assert SwitchOk(Visible(s.archive), s.banks, s.procs[p], m);
      if AmongFirst(Visible(after.archive), s.procs[p].Cursor(), m) {
        ArrivalShifts(s.archive, step.position, step.message, s.procs[p].Cursor(), m);
        assert m != step.message.id;
      }
    }
  }

  lemma ArchiveGrows(archive: seq<Message>, position: nat, message: Message)
    requires position <= |archive|
    ensures forall m :: m in archive ==> m in archive[..position] + [message] + archive[position..]
    ensures Contents(archive) <= Contents(archive[..position] + [message] + archive[position..])
  {
    var after := archive[..position] + [message] + archive[position..];
    forall m | m in archive ensures m in after {
      var i :| 0 <= i < |archive| && archive[i] == m;
      assert after[if i < position then i else i + 1] == m;
    }
  }

  /** The bank of an idle generation is nobody else's: not the pointed one, and not
      one a live rebuild or retain writes to. */
  lemma BankIsPrivate(s: State, pid: ProcessId, other: ProcessId)
    requires Structure(s) && pid in s.procs && (s.procs[pid].Opening? || s.procs[pid].Cleaning?)
    requires other in s.procs && other != pid
    requires s.procs[other].Retaining? || s.procs[other].Switching?
             || (s.procs[other].Rebuilds() && s.reg.Running(s.procs[other].gen))
    ensures s.procs[other].bank != s.procs[pid].bank
  {
    assert ProcessOk(s.archive, s.reg, s.procs[pid]);
    assert ProcessOk(s.archive, s.reg, s.procs[other]);
  }

  /** Emptying or deleting that bank takes nothing from anybody else. */
  lemma ResetKeepsOther(s: State, step: Step, p: ProcessId)
    requires Inv(s) && Enabled(s, step) && (step.CreateClean? || step.DeleteBank?)
    requires p in s.procs && p != step.pid
    ensures ProgressOk(Visible(s.archive), Contents(s.archive), s.reg, Apply(s, step).banks, s.procs[p])
    ensures s.procs[p].Switching? ==>
              Bank(Apply(s, step).banks, s.procs[p].bank) == Bank(s.banks, s.procs[p].bank)
  {
    var process := s.procs[p];
    assert ProgressOk(Visible(s.archive), Contents(s.archive), s.reg, s.banks, process);
    if process.Retaining? || process.Switching? || (process.Rebuilds() && s.reg.Running(process.gen)) {
      BankIsPrivate(s, step.pid, p);
      assert Bank(Apply(s, step).banks, process.bank) == Bank(s.banks, process.bank);
    }
  }

  lemma ResetKeepsPointed(s: State, step: Step)
    requires Structure(s) && Enabled(s, step) && (step.CreateClean? || step.DeleteBank?)
    ensures s.reg.Pointed() ==> Bank(Apply(s, step).banks, s.reg.ActiveBank()) == Bank(s.banks, s.reg.ActiveBank())
  {
    assert ProcessOk(s.archive, s.reg, s.procs[step.pid]);
  }

  lemma ResetBankKept(s: State, step: Step)
    requires Inv(s) && Enabled(s, step) && (step.CreateClean? || step.DeleteBank?)
    ensures Progress(Apply(s, step))
  {
    var after := Apply(s, step);
    forall p | p in after.procs
      ensures ProgressOk(Visible(s.archive), Contents(s.archive), s.reg, after.banks, after.procs[p])
    {
      if p != step.pid { ResetKeepsOther(s, step, p); }
    }
    ConfirmedFrame(s.receipts, s.procs, after.receipts, after.procs);
    ResetKeepsPointed(s, step);
    forall p, m | p in after.procs && Confirmed(s.receipts, s.procs, m)
      ensures SwitchOk(Visible(s.archive), after.banks, after.procs[p], m)
    {
      if p != step.pid { ResetKeepsOther(s, step, p); }
    }
  }

  /** Storing the next message of the page. */
  lemma StoreMoved(rows: seq<MessageId>, due: set<MessageId>, banks: map<BankId, set<MessageId>>, process: Process)
    requires (process.Replaying? || process.Switching?) && process.done < |process.batch|
    ensures var after := Store(banks, process.bank, process.batch[process.done]);
            forall m :: Kept(Bank(banks, process.bank), process.batch, process.done, m) ==>
              Kept(Bank(after, process.bank), process.batch, process.done + 1, m)
  {
  }

  lemma ReplayKept(s: State, pid: ProcessId)
    requires Inv(s) && Enabled(s, Replay(pid))
    ensures Progress(Apply(s, Replay(pid)))
  {
    var after := Apply(s, Replay(pid));
    assert ProgressOk(Visible(s.archive), Contents(s.archive), s.reg, s.banks, s.procs[pid]);
    assert ProcessOk(s.archive, s.reg, s.procs[pid]);
    StoreMoved(Visible(s.archive), Contents(s.archive), s.banks, s.procs[pid]);
    assert Moved(s, after, after.procs[pid]);
    StepFrame(s, after);
  }

  lemma SendKept(s: State, pid: ProcessId)
    requires Inv(s) && Enabled(s, Send(pid))
    ensures Progress(Apply(s, Send(pid)))
  {
    var after := Apply(s, Send(pid));
    assert ProcessOk(s.archive, s.reg, s.procs[pid]);
    assert Moved(s, after, after.procs[pid]);
    StepFrame(s, after);
  }

  /** Reading the next page, or finding that there is none. */
  lemma FetchMoved(rows: seq<MessageId>, bank: set<MessageId>, offset: nat, limit: nat, m: MessageId)
    requires limit > 0 && (AmongFirst(rows, offset, m) ==> m in bank)
    ensures var page := Page(rows, offset, limit);
            && (AmongFirst(rows, offset + |page|, m) ==> Kept(bank, page, 0, m))
            && (page == [] && m in rows ==> AmongFirst(rows, offset, m))
  {
    var page := Page(rows, offset, limit);
    if AmongFirst(rows, offset + |page|, m) && !AmongFirst(rows, offset, m) {
      var k :| 0 <= k < offset + |page| && k < |rows| && rows[k] == m;
      assert page[k - offset] == m;
    }
  }

  /** What the fetching process owes, before and after. */
  lemma FetchedOk(s: State, pid: ProcessId, limit: nat)
    requires Inv(s) && Enabled(s, Fetch(pid, limit))
    ensures Moved(s, Apply(s, Fetch(pid, limit)), Apply(s, Fetch(pid, limit)).procs[pid])
  {
    var process := s.procs[pid];
    var rows, bank := Visible(s.archive), Bank(s.banks, process.bank);
    assert ProgressOk(rows, Contents(s.archive), s.reg, s.banks, process);
    forall m | AmongFirst(rows, process.offset, m) ==> m in bank
      ensures var page := Page(rows, process.offset, limit);
              && (AmongFirst(rows, process.offset + |page|, m) ==> Kept(bank, page, 0, m))
              && (page == [] && m in rows ==> AmongFirst(rows, process.offset, m))
    {
      FetchMoved(rows, bank, process.offset, limit, m);
    }
    forall m | Confirmed(s.receipts, s.procs, m) ensures m in rows && SwitchOk(rows, s.banks, process, m) {
      ContentIsVisible(s.archive, m);
    }
  }

  lemma FetchKept(s: State, step: Step)
    requires Inv(s) && Enabled(s, step) && step.Fetch?
    ensures Progress(Apply(s, step))
  {
    FetchedOk(s, step.pid, step.limit);
    StepFrame(s, Apply(s, step));
  }

  lemma ContentIsVisible(archive: seq<Message>, m: MessageId)
    requires m in Contents(archive)
    ensures m in Visible(archive)
  {
    var message :| message in archive && message.text.Content? && message.id == m;
    VisibleContent(archive, message);
  }

  lemma RecordKept(s: State, pid: ProcessId, lease: Time)
    requires Inv(s) && Enabled(s, RecordProgress(pid, lease))
    ensures Progress(Apply(s, RecordProgress(pid, lease)))
  {
    var after := Apply(s, RecordProgress(pid, lease));
    assert ProcessOk(s.archive, s.reg, s.procs[pid]);
    assert ProgressOk(Visible(s.archive), Contents(s.archive), s.reg, s.banks, s.procs[pid]);
    assert Moved(s, after, after.procs[pid]);
    StepFrame(s, after);
  }

  lemma CatchUpKept(s: State, pid: ProcessId)
    requires Inv(s) && Enabled(s, CatchUp(pid))
    ensures Progress(Apply(s, CatchUp(pid)))
  {
    var after := Apply(s, CatchUp(pid));
    forall m | Confirmed(s.receipts, s.procs, m) ensures SwitchOk(Visible(s.archive), s.banks, after.procs[pid], m) {
      assert SwitchOk(Visible(s.archive), s.banks, s.procs[pid], m);
    }
    assert Moved(s, after, after.procs[pid]);
    StepFrame(s, after);
  }

  lemma BeginSwitchKept(s: State, pid: ProcessId)
    requires Inv(s) && Enabled(s, BeginSwitch(pid))
    ensures Progress(Apply(s, BeginSwitch(pid)))
  {
    var after := Apply(s, BeginSwitch(pid));
    assert ProcessOk(s.archive, s.reg, s.procs[pid]);
    assert ProgressOk(Visible(s.archive), Contents(s.archive), s.reg, s.banks, s.procs[pid]);
    assert Moved(s, after, after.procs[pid]);
    StepFrame(s, after);
  }

  /** The switch itself: the caught-up bank holds everything confirmed, and no
      retain can be in flight because the switch holds the registry lock. */
  lemma CommitKept(s: State, step: Step)
    requires Inv(s) && Enabled(s, step) && step.CommitSwitch?
    ensures Progress(Apply(s, step))
  {
    var after := Apply(s, step);
    var rows, due := Visible(s.archive), Contents(s.archive);
    var process := s.procs[step.pid];
    assert ProcessOk(s.archive, s.reg, process);
    forall p | p in after.procs ensures ProgressOk(rows, due, after.reg, s.banks, after.procs[p]) {
      assert p in s.procs && ProgressOk(rows, due, s.reg, s.banks, s.procs[p]);
      ProgressFrame(rows, due, s.reg, after.reg, s.banks, s.banks, s.procs[p]);
    }
    ConfirmedFrame(s.receipts, s.procs, after.receipts, after.procs);
    forall m | Confirmed(s.receipts, s.procs, m) ensures m in Bank(s.banks, process.bank) {
      assert SwitchOk(rows, s.banks, process, m);
    }
    assert after.reg.ActiveBank() == process.bank;
    assert forall p :: p in after.procs ==> !after.procs[p].Switching?;
  }

  lemma ReturnKept(s: State, step: Step)
    requires Inv(s) && Enabled(s, step) && step.ReturnRetain?
    ensures Progress(Apply(s, step))
  {
    var after := Apply(s, step);
    var rows, due := Visible(s.archive), Contents(s.archive);
    var process := s.procs[step.pid];
    assert ProcessOk(s.archive, s.reg, process);
    assert ProgressOk(rows, due, s.reg, s.banks, process);
    forall p | p in after.procs ensures ProgressOk(rows, due, s.reg, s.banks, after.procs[p]) {
      assert p != step.pid ==> ProgressOk(rows, due, s.reg, s.banks, s.procs[p]);
    }
    forall m | Confirmed(after.receipts, after.procs, m)
      ensures m == process.message.id || Confirmed(s.receipts, s.procs, m)
    {
    }
    assert forall p :: p in after.procs ==> !after.procs[p].Switching?;
  }

  lemma BeginKept(s: State, step: Step)
    requires Inv(s) && Enabled(s, step)
    requires step.BeginRetain? || step.BeginCleanup?
    ensures Progress(Apply(s, step))
  {
    StepFrame(s, Apply(s, step));
  }

  lemma SettleKept(s: State, step: Step)
    requires Inv(s) && Enabled(s, step)
    requires step.RecordReceipt? || step.RecordIgnored? || step.Crash?
    ensures Progress(Apply(s, step))
  {
    StepFrame(s, Apply(s, step));
  }

  lemma RegistryStepKept(s: State, step: Step)
    requires Inv(s) && Enabled(s, step) && (step.Bootstrap? || step.Recover? || step.Start?)
    ensures Progress(Apply(s, step))
  {
    var after := Apply(s, step);
    forall p | p in s.procs && s.procs[p].Rebuilds()
      ensures after.reg.Running(s.procs[p].gen) ==> s.reg.Running(s.procs[p].gen)
    {
      assert ProcessOk(s.archive, s.reg, s.procs[p]);
    }
    StepFrame(s, after);
  }

  lemma EndKept(s: State, step: Step)
    requires Inv(s) && Enabled(s, step) && (step.MarkFailed? || step.FinishCleanup?)
    ensures Progress(Apply(s, step))
  {
    assert ProcessOk(s.archive, s.reg, s.procs[step.pid]);
    StepFrame(s, Apply(s, step));
  }

  /** The steps of a rebuild up to its switch. */
  lemma RebuildStepKept(s: State, step: Step)
    requires Inv(s) && Enabled(s, step)
    requires step.CreateClean? || step.Fetch? || step.Replay? || step.RecordProgress? || step.CatchUp?
             || step.BeginSwitch? || step.CommitSwitch?
    ensures Progress(Apply(s, step))
  {
    if step.CreateClean? {
      ResetBankKept(s, step);
    } else if step.Fetch? {
      FetchKept(s, step);
    } else if step.Replay? {
      ReplayKept(s, step.pid);
    } else if step.CommitSwitch? {
      CommitKept(s, step);
    } else if step.RecordProgress? {
      RecordKept(s, step.pid, step.lease);
    } else if step.CatchUp? {
      CatchUpKept(s, step.pid);
    } else {
      BeginSwitchKept(s, step.pid);
    }
  }

  lemma WorkerStepKept(s: State, step: Step)
    requires Inv(s) && Enabled(s, step)
    requires step.BeginRetain? || step.BeginCleanup? || step.Send? || step.ReturnRetain?
             || step.RecordReceipt? || step.RecordIgnored? || step.Crash?
    ensures Progress(Apply(s, step))
  {
    if step.BeginRetain? || step.BeginCleanup? {
      BeginKept(s, step);
    } else if step.Send? {
      SendKept(s, step.pid);
    } else if step.ReturnRetain? {
      ReturnKept(s, step);
    } else {
      SettleKept(s, step);
    }
  }

  lemma ProgressKept(s: State, step: Step)
    requires Inv(s) && Enabled(s, step) && !Overtaken(s, step)
    ensures Progress(Apply(s, step))
  {
    if step.Arrive? {
      ArriveKept(s, step);
    } else if step.Bootstrap? || step.Recover? || step.Start? {
      RegistryStepKept(s, step);
    } else if step.DeleteBank? {
      ResetBankKept(s, step);
    } else if step.MarkFailed? || step.FinishCleanup? {
      EndKept(s, step);
    } else if step.BeginRetain? || step.BeginCleanup? || step.Send? || step.ReturnRetain?
              || step.RecordReceipt? || step.RecordIgnored? || step.Crash? {
      WorkerStepKept(s, step);
    } else {
      RebuildStepKept(s, step);
    }
  }

  // ----- every run

  /** No arrival of the run is overtaken by a rebuild. */
  ghost predicate NoneOvertaken(s: State, steps: seq<Step>)
    decreases |steps|
  {
    steps == [] ||
    (var most := steps[..|steps| - 1];
     && NoneOvertaken(s, most)
     && (Run(s, most).Some? ==> !Overtaken(Run(s, most).value, steps[|steps| - 1])))
  }

  lemma {:induction false} RunKeepsStructure(banks: map<BankId, set<MessageId>>, steps: seq<Step>)
    requires Run(Initial(banks), steps).Some?
    ensures Structure(Run(Initial(banks), steps).value)
    decreases |steps|
  {
    if steps != [] {
      var most := steps[..|steps| - 1];
      RunKeepsStructure(banks, most);
      StructureKept(Run(Initial(banks), most).value, steps[|steps| - 1]);
    }
  }

  lemma {:induction false} RunKeepsInv(banks: map<BankId, set<MessageId>>, steps: seq<Step>)
    requires Run(Initial(banks), steps).Some? && NoneOvertaken(Initial(banks), steps)
    ensures Inv(Run(Initial(banks), steps).value)
    decreases |steps|
  {
    if steps != [] {
      var most := steps[..|steps| - 1];
      var before := Run(Initial(banks), most).value;
      RunKeepsInv(banks, most);
      StructureKept(before, steps[|steps| - 1]);
      ProgressKept(before, steps[|steps| - 1]);
    }
  }

  /** After any run in which no arrival was overtaken, whatever switches, failures,
      cleanups and crashes it held, a message with an INGESTED receipt is in the bank
      the registry points to. */
  lemma NoReceiptedMessageIsLost(banks: map<BankId, set<MessageId>>, steps: seq<Step>, m: MessageId)
    requires Run(Initial(banks), steps).Some? && NoneOvertaken(Initial(banks), steps)
    requires var s := Run(Initial(banks), steps).value; m in s.receipts && s.receipts[m] == Ingested
    ensures var s := Run(Initial(banks), steps).value;
            && s.reg.Pointed() && s.reg.ActiveBank() in s.banks && m in s.banks[s.reg.ActiveBank()]
            && m in Visible(s.archive) && exists n :: n in s.archive && n.id == m && n.text == Content
  {
    RunKeepsInv(banks, steps);
    var s := Run(Initial(banks), steps).value;
    assert Confirmed(s.receipts, s.procs, m);
    ContentIsVisible(s.archive, m);
  }

  ghost predicate CursorsOk(s: State) {
    forall p :: p in s.procs ==> s.procs[p].Cursor() <= |Visible(s.archive)|
  }

  lemma CursorsKept(s: State, step: Step)
    requires Structure(s) && CursorsOk(s) && Enabled(s, step)
    ensures CursorsOk(Apply(s, step))
  {
    if step.Arrive? {
      ArrivalRows(s.archive, step.position, step.message);
    } else {
      assert Apply(s, step).archive == s.archive;
      forall p | p in Apply(s, step).procs ensures Apply(s, step).procs[p].Cursor() <= |Visible(s.archive)| {
        if !Unmoved(s, Apply(s, step), p) { MoverCursor(s, step, p); }
      }
    }
  }

  lemma MoverCursor(s: State, step: Step, p: ProcessId)
    requires Structure(s) && CursorsOk(s) && Enabled(s, step) && !step.Arrive?
    requires p in Apply(s, step).procs && !Unmoved(s, Apply(s, step), p)
    ensures Apply(s, step).procs[p].Cursor() <= |Visible(s.archive)|
  {
    if step.BeginSwitch? {
      SwitchCursor(s, step.pid);
    } else if step.Fetch? {
      assert s.procs[step.pid].Cursor() <= |Visible(s.archive)|;
    } else {
      assert Apply(s, step).procs[p].Cursor() == 0 || (p in s.procs && Apply(s, step).procs[p].Cursor() == s.procs[p].Cursor());
    }
  }

  /** The switch resumes where the replay stopped. */
  lemma SwitchCursor(s: State, pid: ProcessId)
    requires Structure(s) && CursorsOk(s) && Enabled(s, BeginSwitch(pid))
    ensures s.reg.gens[s.procs[pid].gen].replayed <= |Visible(s.archive)|
  {
    var process := s.procs[pid];
    assert ProcessOk(s.archive, s.reg, process) && process.Cursor() <= |Visible(s.archive)|;
  }

  ghost predicate ArrivesInOrder(s: State, steps: seq<Step>)
    decreases |steps|
  {
    steps == [] ||
    (var most, last := steps[..|steps| - 1], steps[|steps| - 1];
     && ArrivesInOrder(s, most)
     && (last.Arrive? && Run(s, most).Some? ==> last.position == |Run(s, most).value.archive|))
  }

  /** When archive order is arrival order, no arrival is ever overtaken. */
  lemma {:induction false} AppendOnlyIsNotOvertaken(banks: map<BankId, set<MessageId>>, steps: seq<Step>)
    requires Run(Initial(banks), steps).Some?
    requires ArrivesInOrder(Initial(banks), steps)
    ensures NoneOvertaken(Initial(banks), steps) && CursorsOk(Run(Initial(banks), steps).value)
    decreases |steps|
  {
    var n := |steps| - 1;
    if steps != [] {
      var most := steps[..n];
      AppendOnlyIsNotOvertaken(banks, most);
      RunKeepsStructure(banks, most);
      var before := Run(Initial(banks), most).value;
      CursorsKept(before, steps[n]);
      assert before.archive[..|before.archive|] == before.archive;
    }
  }

  /** The registry after any run, in order or not: exactly the pointed generation is
      ACTIVE, at most one is BUILDING, BUILDING means leased, replayed is within total. */
  lemma RegistryStaysConsistent(banks: map<BankId, set<MessageId>>, steps: seq<Step>)
    requires Run(Initial(banks), steps).Some?
    ensures var r := Run(Initial(banks), steps).value.reg;
            && (forall g :: g in r.gens ==> (r.gens[g].status == Active <==> r.active == Some(g)))
            && (r.active.Some? ==> r.active.value in r.gens)
            && (forall g, h | g in r.gens && h in r.gens ::
                  r.gens[g].status == Building && r.gens[h].status == Building ==> g == h)
            && (forall g :: g in r.gens ==> (r.gens[g].status == Building <==> r.gens[g].lease.Some?))
            && (forall g :: g in r.gens ==> r.gens[g].replayed <= r.gens[g].total)
  {
    RunKeepsStructure(banks, steps);
    var r := Run(Initial(banks), steps).value.reg;
    assert forall g :: g in r.gens ==> GenerationOk(r, g);
  }

  /** In every run, recovery fails exactly the rebuilds whose lease has run out, and a rebuild is
      still running afterwards exactly when some BUILDING row has a lease that ends later. */
  lemma RecoveryIsExact(banks: map<BankId, set<MessageId>>, steps: seq<Step>, now: Time)
    requires Run(Initial(banks), steps).Some?
    ensures var s := Run(Initial(banks), steps).value;
            var gens, after := s.reg.gens, Apply(s, Recover(now)).reg.gens;
            && (forall g :: g in gens && gens[g].status == Building ==> gens[g].lease.Some?)
            && after.Keys == gens.Keys && Apply(s, Recover(now)).reg.active == s.reg.active
            && (forall g :: g in gens ==>
                  after[g] == if gens[g].status == Building && gens[g].lease.value <= now
                              then gens[g].(status := Failed, lease := None) else gens[g])
            && ((exists g :: g in after && after[g].status == Building) <==>
                exists g :: g in gens && gens[g].status == Building && gens[g].lease.value > now)
  {
    RegistryStaysConsistent(banks, steps);
    var gens, after := Run(Initial(banks), steps).value.reg.gens, Run(Initial(banks), steps).value.reg.Recover(now).gens;
    if g :| g in gens && gens[g].status == Building && gens[g].lease.value > now {
      assert g in after && after[g].status == Building;
    }
  }

  /** A returned retain is receipted INGESTED and a blank text IGNORED, unless there is a
      receipt already. */
  lemma ReceiptsAreRecorded(s: State, step: Step)
    requires Enabled(s, step) && (step.RecordReceipt? || step.RecordIgnored?)
    ensures step.RecordReceipt? ==> s.procs[step.pid].Retained?
    ensures var m := if step.RecordReceipt? then s.procs[step.pid].message.id else step.message.id;
            var after := Apply(s, step).receipts;
            && after.Keys == s.receipts.Keys + {m} && (forall id :: id in s.receipts ==> after[id] == s.receipts[id])
            && (m !in s.receipts ==> (after[m] == Ingested <==> step.RecordReceipt?))
  {
  }

  /** In any reachable state, the bank cleanup is about to delete belongs neither to
      the pointed generation nor to a BUILDING one, and no process that can still
      switch writes to it. */
  lemma CleanupDeletesOnlyDeadBanks(banks: map<BankId, set<MessageId>>, steps: seq<Step>, pid: ProcessId)
    requires Run(Initial(banks), steps).Some?
    requires Enabled(Run(Initial(banks), steps).value, DeleteBank(pid))
    ensures var s := Run(Initial(banks), steps).value;
            var bank := s.procs[pid].bank;
            && s.reg.Pointed() && s.reg.ActiveBank() != bank
            && (forall g :: g in s.reg.gens && s.reg.gens[g].status == Building ==> s.reg.gens[g].bank != bank)
            && (forall p :: p in s.procs && s.procs[p].Switching? ==> s.procs[p].bank != bank)
  {
    RunKeepsStructure(banks, steps);
    var s := Run(Initial(banks), steps).value;
    assert ProcessOk(s.archive, s.reg, s.procs[pid]);
    forall p | p in s.procs && s.procs[p].Switching? ensures s.procs[p].bank != s.procs[pid].bank {
      BankIsPrivate(s, pid, p);
    }
  }

  /** Receipts are permanent: no later step removes one or changes its outcome, and a
      pointer once set is never cleared. */
  lemma {:induction false} ReceiptsAreFinal(s: State, steps: seq<Step>)
    requires Run(s, steps).Some?
    ensures var t := Run(s, steps).value;
            && (forall m :: m in s.receipts ==> m in t.receipts && t.receipts[m] == s.receipts[m])
            && (s.reg.active.Some? ==> t.reg.active.Some?)
    decreases |steps|
  {
    if steps != [] {
      var most := steps[..|steps| - 1];
      ReceiptsAreFinal(s, most);
      StepKeepsReceipts(Run(s, most).value, steps[|steps| - 1]);
    }
  }

  lemma StepKeepsReceipts(s: State, step: Step)
    requires Enabled(s, step)
    ensures var t := Apply(s, step);
            && (forall m :: m in s.receipts ==> m in t.receipts && t.receipts[m] == s.receipts[m])
            && (s.reg.active.Some? ==> t.reg.active.Some?)
  {
  }

  /** Step `i` of the run is a worker's retain of `m` returning after the backend took it. */
  ghost predicate RetainReturned(s: State, steps: seq<Step>, i: nat, m: MessageId) {
    && i < |steps| && steps[i].ReturnRetain? && Run(s, steps[..i]).Some?
    && var at := Run(s, steps[..i]).value;
       && steps[i].pid in at.procs && at.procs[steps[i].pid].Retaining?
       && at.procs[steps[i].pid].sent && at.procs[steps[i].pid].message.id == m
  }

  /** INGESTED only after a retain of that very message returned, in every run. */
  lemma {:induction false} IngestedOnlyAfterRetain(banks: map<BankId, set<MessageId>>, steps: seq<Step>, m: MessageId)
    requires Run(Initial(banks), steps).Some?
    requires var s := Run(Initial(banks), steps).value; Confirmed(s.receipts, s.procs, m)
    ensures exists i: nat :: RetainReturned(Initial(banks), steps, i, m)
    decreases |steps|
  {
    var start, n := Initial(banks), |steps| - 1;
    if steps != [] {
      var most := steps[..n];
      var before := Run(start, most).value;
      if Confirmed(before.receipts, before.procs, m) {
        IngestedOnlyAfterRetain(banks, most, m);
        var i: nat :| RetainReturned(start, most, i, m);
        assert steps[..i] == most[..i];
        assert RetainReturned(start, steps, i, m);
      } else {
        NewlyConfirmed(before, steps[n], m);
        assert RetainReturned(start, steps, n, m);
      }
    }
  }

  lemma NewlyConfirmed(s: State, step: Step, m: MessageId)
    requires Enabled(s, step) && !Confirmed(s.receipts, s.procs, m)
    requires Confirmed(Apply(s, step).receipts, Apply(s, step).procs, m)
    ensures step.ReturnRetain? && s.procs[step.pid].message.id == m
  {
    var after := Apply(s, step);
    if m in after.receipts && after.receipts[m] == Ingested {
      NoNewReceipt(s, step, m);
    } else {
      var p :| p in after.procs && after.procs[p].Retained? && after.procs[p].message.id == m;
      if p in s.procs && s.procs[p] == after.procs[p] {
        assert false;
      }
    }
  }

  /** A receipt of success was confirmed before it was written. */
  lemma NoNewReceipt(s: State, step: Step, m: MessageId)
    requires Enabled(s, step)
    requires m in Apply(s, step).receipts && Apply(s, step).receipts[m] == Ingested
    ensures Confirmed(s.receipts, s.procs, m)
  {
  }

  lemma OneMoreStep(s: State, steps: seq<Step>, step: Step)
    requires Run(s, steps).Some? && Enabled(Run(s, steps).value, step)
    ensures Run(s, steps + [step]) == Some(Apply(Run(s, steps).value, step))
  {
    assert (steps + [step])[..|steps|] == steps;
  }

  lemma Extend(start: State, steps: seq<Step>, s: State, step: Step, t: State) returns (steps': seq<Step>)
    requires Run(start, steps) == Some(s) && Enabled(s, step) && Apply(s, step) == t
    ensures Run(start, steps') == Some(t)
  {
    OneMoreStep(start, steps, step);
    steps' := steps + [step];
  }
}
