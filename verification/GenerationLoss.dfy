/** Exactly which arrivals offset replay can lose: the overtaken ones. */
module GenerationLoss {
  import opened Basics
  import opened GenerationProtocol
  import opened GenerationSafety
  import opened GenerationDelivery

  /** The message is receipted INGESTED, but not in the bank the registry points to. */
  ghost predicate Lost(s: State, id: MessageId) {
    && id in s.receipts && s.receipts[id] == Ingested
    && s.reg.Pointed() && id !in Bank(s.banks, s.reg.ActiveBank())
  }

  // ----- runs

  /** Some run without arrivals, reading pages of `limit` rows, leads from `s` to `t`. */
  ghost predicate Leads(s: State, t: State, limit: nat) {
    exists steps :: Run(s, steps) == Some(t) && Undisturbed(steps, limit)
  }

  ghost predicate Undisturbed(steps: seq<Step>, limit: nat) {
    forall i :: 0 <= i < |steps| ==> !steps[i].Arrive? && (steps[i].Fetch? ==> steps[i].limit == limit)
  }

  lemma LeadsNowhere(s: State, limit: nat)
    ensures Leads(s, s, limit)
  {
    assert Run(s, []) == Some(s) && Undisturbed([], limit);
  }

  lemma LeadsOn(s: State, mid: State, step: Step, limit: nat)
    requires Leads(s, mid, limit) && Enabled(mid, step) && !step.Arrive? && (step.Fetch? ==> step.limit == limit)
    ensures Leads(s, Apply(mid, step), limit)
  {
    var steps :| Run(s, steps) == Some(mid) && Undisturbed(steps, limit);
    OneMoreStep(s, steps, step);
    assert Undisturbed(steps + [step], limit);
  }

  lemma {:induction false} Append(s: State, first: seq<Step>, t: State, rest: seq<Step>)
    requires Run(s, first) == Some(t)
    ensures Run(s, first + rest) == Run(t, rest)
    ensures NoneOvertaken(s, first) && NoneOvertaken(t, rest) ==> NoneOvertaken(s, first + rest)
    decreases |rest|
  {
    if rest == [] {
      assert first + rest == first;
    } else {
      var most := rest[..|rest| - 1];
      Append(s, first, t, most);
      assert (first + rest)[..|first + rest| - 1] == first + most;
    }
  }

  lemma {:induction false} UndisturbedIsNotOvertaken(s: State, steps: seq<Step>, limit: nat)
    requires Undisturbed(steps, limit)
    ensures NoneOvertaken(s, steps)
    decreases |steps|
  {
    if steps != [] {
      UndisturbedIsNotOvertaken(s, steps[..|steps| - 1], limit);
    }
  }

  // ----- a new message is nowhere yet

  function Ids(archive: seq<Message>): set<MessageId> {
    set m | m in archive :: m.id
  }

  ghost predicate PageFrom(ids: set<MessageId>, batch: seq<MessageId>) {
    forall j :: 0 <= j < |batch| ==> batch[j] in ids
  }

  ghost predicate HoldsOnly(ids: set<MessageId>, banks: map<BankId, set<MessageId>>, process: Process) {
    match process
    case Retaining(message, _, _) => message.id in ids
    case Retained(message) => message.id in ids
    case Replaying(_, bank, _, batch, _) => Bank(banks, bank) <= ids && PageFrom(ids, batch)
    case Replayed(_, bank, _) => Bank(banks, bank) <= ids
    case Switching(_, bank, _, _, batch, _, _) => Bank(banks, bank) <= ids && PageFrom(ids, batch)
    case _ => true
  }

  /** Receipts, pages and the banks being filled hold archived messages only. */
  ghost predicate FromArchive(s: State) {
    && s.receipts.Keys <= Ids(s.archive)
    && forall p :: p in s.procs ==> HoldsOnly(Ids(s.archive), s.banks, s.procs[p])
  }

  /** Banks may gain archived messages. */
  lemma HoldsOnlyFrame(ids: set<MessageId>, ids': set<MessageId>, banks: map<BankId, set<MessageId>>,
                       banks': map<BankId, set<MessageId>>, process: Process)
    requires HoldsOnly(ids, banks, process) && ids <= ids'
    requires forall b :: Bank(banks', b) <= Bank(banks, b) + ids'
    ensures HoldsOnly(ids', banks', process)
  {
  }

  lemma PageIsArchived(archive: seq<Message>, offset: nat, limit: nat)
    ensures PageFrom(Ids(archive), Page(Visible(archive), offset, limit))
  {
    var rows, page := Visible(archive), Page(Visible(archive), offset, limit);
    forall j | 0 <= j < |page| ensures page[j] in Ids(archive) {
      assert page[j] in rows;
      VisibleArchived(archive, page[j]);
    }
  }

  lemma BanksGainArchived(s: State, step: Step)
    requires FromArchive(s) && Enabled(s, step)
    ensures Ids(s.archive) <= Ids(Apply(s, step).archive)
    ensures forall b :: Bank(Apply(s, step).banks, b) <= Bank(s.banks, b) + Ids(s.archive)
  {
    if step.Arrive? {
      ArchiveGrows(s.archive, step.position, step.message);
    } else if step.Replay? || step.Send? {
      WritesArchived(s, step);
    } else {
      assert Apply(s, step).archive == s.archive;
      assert forall b :: Bank(Apply(s, step).banks, b) <= Bank(s.banks, b);
    }
  }

  lemma WritesArchived(s: State, step: Step)
    requires FromArchive(s) && Enabled(s, step) && (step.Replay? || step.Send?)
    ensures forall b :: Bank(Apply(s, step).banks, b) <= Bank(s.banks, b) + Ids(s.archive)
  {
    assert HoldsOnly(Ids(s.archive), s.banks, s.procs[step.pid]);
  }

  lemma FetcherHoldsOnly(s: State, step: Step)
    requires FromArchive(s) && Enabled(s, step) && step.Fetch?
    ensures HoldsOnly(Ids(s.archive), s.banks, Apply(s, step).procs[step.pid])
  {
    assert HoldsOnly(Ids(s.archive), s.banks, s.procs[step.pid]);
    PageIsArchived(s.archive, s.procs[step.pid].offset, step.limit);
  }

  lemma WriterHoldsOnly(s: State, step: Step)
    requires FromArchive(s) && Enabled(s, step) && (step.Replay? || step.Send?)
    ensures HoldsOnly(Ids(s.archive), Apply(s, step).banks, Apply(s, step).procs[step.pid])
  {
    assert HoldsOnly(Ids(s.archive), s.banks, s.procs[step.pid]);
    WritesArchived(s, step);
  }

  lemma AdvancerHoldsOnly(s: State, step: Step)
    requires Structure(s) && FromArchive(s) && Enabled(s, step)
    requires step.RecordProgress? || step.CatchUp? || step.BeginSwitch? || step.ReturnRetain?
    ensures HoldsOnly(Ids(s.archive), s.banks, Apply(s, step).procs[step.pid])
  {
    assert ProcessOk(s.archive, s.reg, s.procs[step.pid]);
    assert HoldsOnly(Ids(s.archive), s.banks, s.procs[step.pid]);
  }

  /** A process that starts, or takes the lock. */
  lemma StarterHoldsOnly(s: State, step: Step)
    requires FromArchive(s) && Enabled(s, step)
    requires step.Start? || step.CreateClean? || step.BeginRetain? || step.BeginCleanup?
    ensures HoldsOnly(Ids(s.archive), Apply(s, step).banks, Apply(s, step).procs[step.pid])
  {
  }

  lemma MoverHoldsOnly(s: State, step: Step)
    requires Structure(s) && FromArchive(s) && Enabled(s, step) && Moves(step)
    ensures HoldsOnly(Ids(s.archive), Apply(s, step).banks, Apply(s, step).procs[step.pid])
  {
    if step.Fetch? {
      FetcherHoldsOnly(s, step);
    } else if step.Replay? || step.Send? {
      WriterHoldsOnly(s, step);
    } else if step.RecordProgress? || step.CatchUp? || step.BeginSwitch? || step.ReturnRetain? {
      AdvancerHoldsOnly(s, step);
    } else {
      StarterHoldsOnly(s, step);
    }
  }

  /** The step leaves its process at another await point. */
  predicate Moves(step: Step) {
    || step.Start? || step.CreateClean? || step.Fetch? || step.Replay? || step.RecordProgress? || step.BeginSwitch?
    || step.CatchUp? || step.BeginRetain? || step.Send? || step.ReturnRetain? || step.BeginCleanup?
  }

  lemma OthersStay(s: State, step: Step, p: ProcessId)
    requires Enabled(s, step) && p in Apply(s, step).procs && (Moves(step) ==> p != step.pid)
    ensures Unmoved(s, Apply(s, step), p)
  {
  }

  lemma ReceiptsFromArchive(s: State, step: Step)
    requires Structure(s) && FromArchive(s) && Enabled(s, step)
    ensures Apply(s, step).receipts.Keys <= Ids(s.archive)
  {
    if step.RecordReceipt? {
      assert HoldsOnly(Ids(s.archive), s.banks, s.procs[step.pid]);
    } else if !step.RecordIgnored? {
      assert Apply(s, step).receipts == s.receipts;
    }
  }

  lemma FromArchiveKept(s: State, step: Step)
    requires Structure(s) && FromArchive(s) && Enabled(s, step)
    ensures FromArchive(Apply(s, step))
  {
    var after := Apply(s, step);
    BanksGainArchived(s, step);
    ReceiptsFromArchive(s, step);
    forall p | p in after.procs ensures HoldsOnly(Ids(after.archive), after.banks, after.procs[p]) {
      if Moves(step) && p == step.pid {
        MoverHoldsOnly(s, step);
        HoldsOnlyFrame(Ids(s.archive), Ids(after.archive), after.banks, after.banks, after.procs[p]);
      } else {
        OthersStay(s, step, p);
        HoldsOnlyFrame(Ids(s.archive), Ids(after.archive), s.banks, after.banks, s.procs[p]);
      }
    }
  }

  lemma {:induction false} RunIsFromArchive(banks: map<BankId, set<MessageId>>, steps: seq<Step>)
    requires Run(Initial(banks), steps).Some?
    ensures FromArchive(Run(Initial(banks), steps).value)
    decreases |steps|
  {
    if steps != [] {
      var most := steps[..|steps| - 1];
      RunIsFromArchive(banks, most);
      RunKeepsStructure(banks, most);
      FromArchiveKept(Run(Initial(banks), most).value, steps[|steps| - 1]);
    }
  }

  // ----- a rebuild that has passed a message leaves it behind

  /** `p` has read past every row of `id`, and nothing it still holds is `id`. */
  ghost predicate Passed(rows: seq<MessageId>, process: Process, id: MessageId) {
    && (process.Replaying? || process.Switching? ==>
          process.done <= |process.batch| && id !in process.batch)
    && forall k :: process.Cursor() <= k < |rows| ==> rows[k] != id
  }

  /** `p` may carry on undisturbed: it holds the lock if it switches, and otherwise
      nobody does and its generation is still BUILDING. */
  ghost predicate Free(s: State, p: ProcessId) {
    && p in s.procs && s.reg.active.Some?
    && match s.procs[p]
       case Replaying(gen, _, offset, _, _) =>
         s.lock.None? && s.reg.Running(gen) && s.reg.gens[gen].replayed == offset
       case Replayed(gen, _, offset) => s.lock.None? && s.reg.Running(gen) && s.reg.gens[gen].replayed == offset
       case Switching(gen, _, _, _, batch, _, caughtUp) => s.lock == Some(p) && gen in s.reg.gens && (caughtUp ==> batch == [])
       case _ => false
  }

  ghost predicate Doomed(s: State, p: ProcessId, id: MessageId) {
    && Free(s, p) && Passed(Visible(s.archive), s.procs[p], id)
    && id in s.receipts && s.receipts[id] == Ingested && id !in Bank(s.banks, s.procs[p].bank)
  }

  /** The page that `p` holds is stored. */
  lemma {:induction false} StorePage(start: State, s: State, p: ProcessId, id: MessageId, limit: nat) returns (t: State)
    requires Leads(start, s, limit) && Doomed(s, p, id) && (s.procs[p].Replaying? || s.procs[p].Switching?)
    ensures Leads(start, t, limit) && Doomed(t, p, id) && t.archive == s.archive
    ensures t.procs[p] == s.procs[p].(done := |s.procs[p].batch|)
    decreases |s.procs[p].batch| - s.procs[p].done
  {
    if s.procs[p].done == |s.procs[p].batch| {
      t := s;
    } else {
      LeadsOn(start, s, Replay(p), limit);
      var after := Apply(s, Replay(p));
      assert s.procs[p].batch[s.procs[p].done] in s.procs[p].batch;
      t := StorePage(start, after, p, id, limit);
    }
  }

  /** The stored page is recorded, if there was one. */
  lemma RecordPage(start: State, s: State, p: ProcessId, id: MessageId, limit: nat) returns (t: State)
    requires Leads(start, s, limit) && Doomed(s, p, id) && (s.procs[p].Replaying? || s.procs[p].Switching?)
    requires s.procs[p].done == |s.procs[p].batch|
    ensures Leads(start, t, limit) && Doomed(t, p, id) && t.archive == s.archive
    ensures t.procs[p].Replaying? == s.procs[p].Replaying? && t.procs[p].Switching? == s.procs[p].Switching?
    ensures t.procs[p].Cursor() == s.procs[p].Cursor() && t.procs[p].batch == []
    ensures s.procs[p].Switching? ==> t.procs[p].caughtUp == s.procs[p].caughtUp
  {
    if s.procs[p].batch == [] {
      t := s;
    } else {
      var step := if s.procs[p].Replaying? then RecordProgress(p, 0) else CatchUp(p);
      LeadsOn(start, s, step, limit);
      t := Apply(s, step);
    }
  }

  ghost predicate AtEnd(process: Process) {
    process.Replayed? || (process.Switching? && process.caughtUp)
  }

  /** `p` reads, stores and records pages until there are none left. */
  lemma {:induction false} ReadOn(start: State, s: State, p: ProcessId, id: MessageId, limit: nat) returns (t: State)
    requires limit > 0 && Leads(start, s, limit) && Doomed(s, p, id)
    requires (s.procs[p].Replaying? || s.procs[p].Switching?) && s.procs[p].batch == []
    ensures Leads(start, t, limit) && Doomed(t, p, id) && AtEnd(t.procs[p])
    ensures t.procs[p].Switching? == s.procs[p].Switching?
    decreases |Visible(s.archive)| - s.procs[p].offset
  {
    if AtEnd(s.procs[p]) {
      t := s;
    } else {
      LeadsOn(start, s, Fetch(p, limit), limit);
      var after := Apply(s, Fetch(p, limit));
      FetchStaysDoomed(s, p, id, limit);
      if AtEnd(after.procs[p]) {
        t := after;
      } else {
        t := StorePage(start, after, p, id, limit);
        t := RecordPage(start, t, p, id, limit);
        t := ReadOn(start, t, p, id, limit);
      }
    }
  }

  lemma FetchStaysDoomed(s: State, p: ProcessId, id: MessageId, limit: nat)
    requires limit > 0 && Doomed(s, p, id) && Enabled(s, Fetch(p, limit))
    ensures Doomed(Apply(s, Fetch(p, limit)), p, id)
    ensures var after := Apply(s, Fetch(p, limit)).procs[p];
            && after.Switching? == s.procs[p].Switching?
            && (AtEnd(after) || (after == s.procs[p].(batch := after.batch, done := 0) && |after.batch| > 0
                                 && after.offset + |after.batch| <= |Visible(s.archive)|))
  {
  }

  /** The replay reaches the end of the archive. */
  lemma FinishReplay(start: State, s: State, p: ProcessId, id: MessageId, limit: nat) returns (t: State)
    requires limit > 0 && Leads(start, s, limit) && Doomed(s, p, id)
    requires s.procs[p].Replaying? || s.procs[p].Replayed?
    ensures Leads(start, t, limit) && Doomed(t, p, id) && t.procs[p].Replayed?
  {
    t := s;
    if s.procs[p].Replaying? {
      t := StorePage(start, t, p, id, limit);
      t := RecordPage(start, t, p, id, limit);
      t := ReadOn(start, t, p, id, limit);
    }
  }

  /** The switch catches up and moves the pointer to a bank without the message. */
  lemma Switch(start: State, s: State, p: ProcessId, id: MessageId, limit: nat) returns (t: State)
    requires limit > 0 && Leads(start, s, limit) && Doomed(s, p, id) && s.procs[p].Replayed?
    ensures Leads(start, t, limit) && Lost(t, id)
  {
    LeadsOn(start, s, BeginSwitch(p), limit);
    var at := ReadOn(start, Apply(s, BeginSwitch(p)), p, id, limit);
    LeadsOn(start, at, CommitSwitch(p), limit);
    t := Apply(at, CommitSwitch(p));
  }

  // ----- the overtaken arrival

  lemma {:induction false} FreshProcess(used: set<ProcessId>) returns (w: ProcessId)
    ensures forall p :: p in used ==> p < w
  {
    if used == {} {
      w := 0;
    } else {
      var p :| p in used;
      w := FreshProcess(used - {p});
      w := if w <= p then p + 1 else w;
      assert forall q :: q in used ==> q == p || q in used - {p};
    }
  }

  /** `p` has overtaken `id`, which is archived but not yet retained anywhere. */
  ghost predicate Behind(s: State, p: ProcessId, message: Message) {
    && Structure(s) && p in s.procs && (s.procs[p].Replaying? || s.procs[p].Replayed?)
    && s.reg.Running(s.procs[p].gen) && Passed(Visible(s.archive), s.procs[p], message.id)
    && message in s.archive && message.text.Content?
    && message.id !in s.receipts && message.id !in Bank(s.banks, s.procs[p].bank)
  }

  lemma ArrivalIsBehind(s: State, arrive: Step, p: ProcessId)
    requires Structure(s) && FromArchive(s) && Enabled(s, arrive) && arrive.Arrive? && arrive.message.text.Content?
    requires OvertakenBy(s, |Visible(s.archive[..arrive.position])|, p)
    ensures Behind(Apply(s, arrive), p, arrive.message)
  {
    var id, after := arrive.message.id, Apply(s, arrive);
    StructureKept(s, arrive);
    assert ProcessOk(s.archive, s.reg, s.procs[p]) && HoldsOnly(Ids(s.archive), s.banks, s.procs[p]);
    assert id !in Ids(s.archive);
    NotYetVisible(s, arrive);
    ArrivalRows(s.archive, arrive.position, arrive.message);
    var a, b := Visible(s.archive[..arrive.position]), Visible(s.archive[arrive.position..]);
    assert Visible([arrive.message]) == [id];
    forall k | s.procs[p].Cursor() <= k < |Visible(after.archive)| ensures Visible(after.archive)[k] != id {
      assert Visible(after.archive)[k] == Visible(s.archive)[k - 1];
    }
    assert after.archive[arrive.position] == arrive.message;
  }

  /** Whoever holds the registry lock crashes; a switch rolls back. */
  lemma Unlock(start: State, s: State, p: ProcessId, message: Message, limit: nat) returns (t: State)
    requires Leads(start, s, limit) && Behind(s, p, message)
    ensures Leads(start, t, limit) && Behind(t, p, message) && t.lock.None?
  {
    if s.lock.None? {
      t := s;
    } else {
      LeadsOn(start, s, Crash(s.lock.value), limit);
      StructureKept(s, Crash(s.lock.value));
      t := Apply(s, Crash(s.lock.value));
    }
  }

  /** A worker `w` holds the message, and it is not in the bank that `p` fills. */
  ghost predicate HeldElsewhere(s: State, p: ProcessId, w: ProcessId, message: Message) {
    && w != p && w in s.procs && message.id !in s.receipts && s.reg.active.Some?
    && p in s.procs && (s.procs[p].Replaying? || s.procs[p].Replayed?)
    && s.reg.Running(s.procs[p].gen) && s.reg.gens[s.procs[p].gen].replayed == s.procs[p].offset
    && Passed(Visible(s.archive), s.procs[p], message.id) && message.id !in Bank(s.banks, s.procs[p].bank)
  }

  lemma BeginOld(start: State, s: State, p: ProcessId, w: ProcessId, message: Message, limit: nat) returns (t: State)
    requires Leads(start, s, limit) && Behind(s, p, message) && s.lock.None? && w !in s.procs
    ensures Leads(start, t, limit) && HeldElsewhere(t, p, w, message)
    ensures t.procs[w].Retaining? && t.procs[w].message == message && t.procs[w].bank != t.procs[p].bank
  {
    assert ProcessOk(s.archive, s.reg, s.procs[p]);
    LeadsOn(start, s, BeginRetain(w, message), limit);
    t := Apply(s, BeginRetain(w, message));
  }

  /** A worker retains the message into the bank that is still pointed to. */
  lemma RetainOld(start: State, s: State, p: ProcessId, w: ProcessId, message: Message, limit: nat) returns (t: State)
    requires Leads(start, s, limit) && HeldElsewhere(s, p, w, message)
    requires s.procs[w].Retaining? && s.procs[w].message == message && s.procs[w].bank != s.procs[p].bank
    ensures Leads(start, t, limit) && HeldElsewhere(t, p, w, message)
    ensures t.procs[w] == Retained(message) && t.lock.None?
  {
    LeadsOn(start, s, Send(w), limit);
    t := Apply(s, Send(w));
    LeadsOn(start, t, ReturnRetain(w), limit);
    t := Apply(t, ReturnRetain(w));
    assert t.procs[p] == s.procs[p];
  }

  lemma ReceiptOld(start: State, s: State, p: ProcessId, w: ProcessId, message: Message, limit: nat) returns (t: State)
    requires Leads(start, s, limit) && HeldElsewhere(s, p, w, message)
    requires s.procs[w] == Retained(message) && s.lock.None?
    ensures Leads(start, t, limit) && Doomed(t, p, message.id) && (t.procs[p].Replaying? || t.procs[p].Replayed?)
  {
    LeadsOn(start, s, RecordReceipt(w), limit);
    t := Apply(s, RecordReceipt(w));
    assert t.procs[p] == s.procs[p];
  }

  /** From any reachable state, whatever the page size, an overtaken arrival has an
      undisturbed continuation that ends with its INGESTED receipt outside the pointed bank.
      Its switch takes the index check to pass. That check samples the newest message of the
      first and the last conversation, so it fails if the lost message is one of these; a
      later arrival in that conversation, which `LostIffOvertaken` allows, takes its place. */
  lemma OvertakenArrivalCanBeLost(banks: map<BankId, set<MessageId>>, steps: seq<Step>, s: State, arrive: Step,
                                  limit: nat) returns (t: State)
    requires Run(Initial(banks), steps) == Some(s) && Enabled(s, arrive) && Overtaken(s, arrive) && limit > 0
    ensures Leads(Apply(s, arrive), t, limit) && Lost(t, arrive.message.id)
  {
    RunKeepsStructure(banks, steps);
    RunIsFromArchive(banks, steps);
    var p :| OvertakenBy(s, |Visible(s.archive[..arrive.position])|, p);
    ArrivalIsBehind(s, arrive, p);
    var start := Apply(s, arrive);
    LeadsNowhere(start, limit);
    t := Unlock(start, start, p, arrive.message, limit);
    var w := FreshProcess(t.procs.Keys);
    t := BeginOld(start, t, p, w, arrive.message, limit);
    t := RetainOld(start, t, p, w, arrive.message, limit);
    t := ReceiptOld(start, t, p, w, arrive.message, limit);
    t := FinishReplay(start, t, p, arrive.message.id, limit);
    t := Switch(start, t, p, arrive.message.id, limit);
  }

  /** The message arriving in `s` can be lost although nothing later is overtaken. */
  ghost predicate CanBeLost(s: State, arrive: Step)
    requires Enabled(s, arrive) && arrive.Arrive?
  {
    exists rest :: NoneOvertaken(Apply(s, arrive), rest) && Run(Apply(s, arrive), rest).Some?
                   && Lost(Run(Apply(s, arrive), rest).value, arrive.message.id)
  }

  /** Exactness: as long as no arrival was overtaken before, the next one can be lost if
      and only if it is overtaken. */
  lemma LostIffOvertaken(banks: map<BankId, set<MessageId>>, steps: seq<Step>, s: State, arrive: Step)
    requires Run(Initial(banks), steps) == Some(s) && NoneOvertaken(Initial(banks), steps)
    requires Enabled(s, arrive) && arrive.Arrive?
    ensures CanBeLost(s, arrive) <==> Overtaken(s, arrive)
  {
    var after := Apply(s, arrive);
    if Overtaken(s, arrive) {
      var t := OvertakenArrivalCanBeLost(banks, steps, s, arrive, 1);
      var rest :| Run(after, rest) == Some(t) && Undisturbed(rest, 1);
      UndisturbedIsNotOvertaken(after, rest, 1);
    } else if CanBeLost(s, arrive) {
      var rest :| NoneOvertaken(after, rest) && Run(after, rest).Some?
                  && Lost(Run(after, rest).value, arrive.message.id);
      var first := steps + [arrive];
      OneMoreStep(Initial(banks), steps, arrive);
      assert first[..|steps|] == steps;
      Append(Initial(banks), first, after, rest);
      NoReceiptedMessageIsLost(banks, first + rest, arrive.message.id);
      assert false;
    }
  }

  // ----- it does happen

  const FIRST := Message(1, Content)
  const LATE := Message(2, Content)

  /** Generation 10 (bank 100) is ACTIVE while rebuild 1 fills generation 11 (bank 101). */
  function Midway(banks: map<BankId, set<MessageId>>, process: Process): State {
    State([FIRST],
          Registry(map[10 := Generation(100, Active, 0, 0, None), 11 := Generation(101, Building, 1, 0, Some(900))],
                   Some(10), {10, 11}, {100, 101}),
          banks, map[], None, map[1 := process])
  }

  lemma StartFirst() returns (steps: seq<Step>)
    ensures Run(Initial(map[]), steps) == Some(Midway(map[], Opening(11, 101)))
  {
    var start := Initial(map[]);
    var bootstrapped := Registry(map[10 := Generation(100, Active, 0, 0, None)], Some(10), {10}, {100});
    steps := Extend(start, [], start, Bootstrap(10, 100), start.(reg := bootstrapped));
    var one := State([FIRST], bootstrapped, map[], map[], None, map[]);
    steps := Extend(start, steps, start.(reg := bootstrapped), Arrive(0, FIRST), one);
    FirstRow();
    steps := Extend(start, steps, one, Start(1, 11, 101, 900), Midway(map[], Opening(11, 101)));
  }

  lemma FirstRow()
    ensures Visible([FIRST]) == [1] && Page(Visible([FIRST]), 0, 25) == [1]
  {
    assert [FIRST][1..] == [] && [1][0..1] == [1];
  }

  /** Rebuild 1 has read the page that holds message 1. */
  lemma ReadFirst() returns (steps: seq<Step>)
    ensures Run(Initial(map[]), steps) == Some(Midway(map[101 := {}], Replaying(11, 101, 0, [1], 0)))
  {
    var start := Initial(map[]);
    steps := StartFirst();
    var s := Midway(map[], Opening(11, 101));
    var t := Midway(map[101 := {}], Replaying(11, 101, 0, [], 0));
    steps := Extend(start, steps, s, CreateClean(1), t);
    FirstRow();
    steps := Extend(start, steps, t, Fetch(1, 25), Midway(map[101 := {}], Replaying(11, 101, 0, [1], 0)));
  }

  /** Message 2 commits late, with a sort position before message 1, which a rebuild has
      read already: a concrete run ends with message 2 receipted and lost. */
  lemma LateArrivalIsLost() returns (steps: seq<Step>)
    ensures Run(Initial(map[]), steps).Some? && Lost(Run(Initial(map[]), steps).value, 2)
  {
    var start, arrive := Initial(map[]), Arrive(0, LATE);
    var s := Midway(map[101 := {}], Replaying(11, 101, 0, [1], 0));
    var before := ReadFirst();
    assert OvertakenBy(s, |Visible(s.archive[..0])|, 1);
    var t := OvertakenArrivalCanBeLost(map[], before, s, arrive, 25);
    var rest :| Run(Apply(s, arrive), rest) == Some(t) && Undisturbed(rest, 25);
    OneMoreStep(start, before, arrive);
    Append(start, before + [arrive], Apply(s, arrive), rest);
    steps := before + [arrive] + rest;
  }
}
