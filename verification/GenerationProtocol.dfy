/** The memory-generation protocol as a state machine.

    Ingestion workers retain messages into the bank the registry points to while
    a rebuild replays the archive into a fresh bank and finally moves the pointer.
    Every await point is a separate step, so workers, rebuilds, lease recovery,
    cleanup, message arrival and crashes interleave freely; what excludes a retain
    from a switch is the registry row lock, which is part of the state. */
module GenerationProtocol {
  import opened Basics

  type MessageId = nat
  type GenerationId = nat
  type BankId = nat
  type ProcessId = nat

  /** What the two blankness tests see. The archive queries trim spaces only; the
      worker strips every whitespace character, so it ignores more messages. */
  datatype Text = Blank | WhitespaceOnly | Content

  datatype Message = Message(id: MessageId, text: Text)

  datatype Status = Building | Active | Superseded | Failed

  datatype Generation = Generation(
    bank: BankId, status: Status, total: nat, replayed: nat, lease: Option<Time>)
  {
    predicate Expired(now: Time) {
      status == Building && lease.Some? && lease.value <= now
    }

    function Progressed(offset: nat, until: Time): Generation {
      this.(replayed := offset, total := if total < offset then offset else total, lease := Some(until))
    }
  }

  datatype Outcome = Ingested | IgnoredBlank

  /** A process between two await points. A worker that does not appear is idle. */
  datatype Process =
    | Retaining(message: Message, bank: BankId, sent: bool)
    | Retained(message: Message)
    | Opening(gen: GenerationId, bank: BankId)
    | Replaying(gen: GenerationId, bank: BankId, offset: nat, batch: seq<MessageId>, done: nat)
    | Replayed(gen: GenerationId, bank: BankId, offset: nat)
    | Switching(gen: GenerationId, bank: BankId, total: nat, offset: nat,
                batch: seq<MessageId>, done: nat, caughtUp: bool)
    | Cleaning(gen: GenerationId, bank: BankId)
  {
    /** The process is inside a transaction that locked the registry row. */
    predicate HoldsLock() {
      Retaining? || Switching? || Cleaning?
    }

    predicate Rebuilds() {
      Opening? || Replaying? || Replayed? || Switching?
    }

    /** How many archive rows, in archive order, the process has read. */
    function Cursor(): nat {
      match this
      case Replaying(_, _, offset, batch, _) => offset + |batch|
      case Replayed(_, _, offset) => offset
      case Switching(_, _, _, offset, batch, _, _) => offset + |batch|
      case _ => 0
    }
  }

  /** The generation rows, the registry pointer, and every identifier ever handed
      out, because a new UUID is assumed never to repeat an old one. */
  datatype Registry = Registry(
    gens: map<GenerationId, Generation>,
    active: Option<GenerationId>,
    usedGens: set<GenerationId>,
    usedBanks: set<BankId>)
  {
    predicate Running(gen: GenerationId) {
      gen in gens && gens[gen].status == Building
    }

    predicate Pointed() {
      active.Some? && active.value in gens && gens[active.value].status == Active
    }

    function ActiveBank(): BankId
      requires Pointed()
    {
      gens[active.value].bank
    }

    function Insert(gen: GenerationId, row: Generation): Registry {
      this.(gens := gens[gen := row], usedGens := usedGens + {gen}, usedBanks := usedBanks + {row.bank})
    }

    function Update(gen: GenerationId, row: Generation): Registry {
      this.(gens := gens[gen := row])
    }

    function Retire(gen: GenerationId, status: Status): Registry {
      if gen in gens then Update(gen, gens[gen].(status := status, lease := None)) else this
    }

    /** Lease recovery: every expired rebuild is marked failed. */
    function Recover(now: Time): Registry {
      this.(gens := map g | g in gens ::
              if gens[g].Expired(now) then gens[g].(status := Failed, lease := None) else gens[g])
    }
  }

  datatype State = State(
    archive: seq<Message>,
    reg: Registry,
    banks: map<BankId, set<MessageId>>,
    receipts: map<MessageId, Outcome>,
    lock: Option<ProcessId>,
    procs: map<ProcessId, Process>)

  datatype Step =
    | Arrive(position: nat, message: Message)
    | Bootstrap(gen: GenerationId, bank: BankId)
    | Recover(now: Time)
    | Start(pid: ProcessId, gen: GenerationId, bank: BankId, lease: Time)
    | CreateClean(pid: ProcessId)
    | Fetch(pid: ProcessId, limit: nat)
    | Replay(pid: ProcessId)
    | RecordProgress(pid: ProcessId, lease: Time)
    | BeginSwitch(pid: ProcessId)
    | CatchUp(pid: ProcessId)
    | CommitSwitch(pid: ProcessId)
    | MarkFailed(pid: ProcessId)
    | BeginRetain(pid: ProcessId, message: Message)
    | Send(pid: ProcessId)
    | ReturnRetain(pid: ProcessId)
    | RecordReceipt(pid: ProcessId)
    | RecordIgnored(message: Message)
    | BeginCleanup(pid: ProcessId, gen: GenerationId)
    | DeleteBank(pid: ProcessId)
    | FinishCleanup(pid: ProcessId)
    | Crash(pid: ProcessId)

  /** The rows the replay query returns, in archive order. */
  function Visible(archive: seq<Message>): seq<MessageId> {
    if archive == [] then []
    else (if archive[0].text.Blank? then [] else [archive[0].id]) + Visible(archive[1..])
  }

  /** The query's page: up to `limit` rows after the first `offset`. */
  function Page(rows: seq<MessageId>, offset: nat, limit: nat): (page: seq<MessageId>)
    ensures offset <= |rows| ==>
              && offset + |page| <= |rows| && (forall j :: 0 <= j < |page| ==> page[j] == rows[offset + j])
              && (page == [] && limit > 0 ==> offset == |rows|)
  {
    if offset >= |rows| then [] else rows[offset..Min(offset + limit, |rows|)]
  }

  function Bank(banks: map<BankId, set<MessageId>>, bank: BankId): set<MessageId> {
    if bank in banks then banks[bank] else {}
  }

  /** Retain is idempotent per operation id, and the operation id is a function of the message. */
  function Store(banks: map<BankId, set<MessageId>>, bank: BankId, message: MessageId)
    : map<BankId, set<MessageId>>
  {
    banks[bank := Bank(banks, bank) + {message}]
  }

  predicate Enabled(s: State, step: Step) {
    match step
    case Arrive(position, message) =>
      position <= |s.archive| && forall m :: m in s.archive ==> m.id != message.id
    case Bootstrap(gen, bank) =>
      && s.lock.None? && s.reg.active.None?
      && (if gen in s.reg.gens then s.reg.gens[gen].bank == bank
          else gen !in s.reg.usedGens && forall g :: g in s.reg.gens ==> s.reg.gens[g].bank != bank)
    case Recover(_) => true
    case Start(pid, gen, bank, _) =>
      && pid !in s.procs && s.lock.None? && s.reg.active.Some?
      && (forall g :: g in s.reg.gens ==> s.reg.gens[g].status != Building)
      && gen !in s.reg.usedGens && bank !in s.reg.usedBanks
    case CreateClean(pid) => pid in s.procs && s.procs[pid].Opening?
    case Fetch(pid, limit) =>
      && pid in s.procs && limit > 0
      && (s.procs[pid].Replaying? || (s.procs[pid].Switching? && !s.procs[pid].caughtUp))
      && s.procs[pid].batch == []
    case Replay(pid) =>
      && pid in s.procs && (s.procs[pid].Replaying? || s.procs[pid].Switching?)
      && s.procs[pid].done < |s.procs[pid].batch|
    case RecordProgress(pid, _) =>
      && pid in s.procs && s.procs[pid].Replaying?
      && s.procs[pid].batch != [] && s.procs[pid].done == |s.procs[pid].batch|
      && s.reg.Running(s.procs[pid].gen)
    case BeginSwitch(pid) =>
      && pid in s.procs && s.procs[pid].Replayed? && s.lock.None?
      && s.reg.Running(s.procs[pid].gen)
    case CatchUp(pid) =>
      && pid in s.procs && s.procs[pid].Switching?
      && s.procs[pid].batch != [] && s.procs[pid].done == |s.procs[pid].batch|
    case CommitSwitch(pid) =>
      pid in s.procs && s.procs[pid].Switching? && s.procs[pid].caughtUp
    case MarkFailed(pid) => pid in s.procs && s.procs[pid].Rebuilds()
    case BeginRetain(pid, message) =>
      && pid !in s.procs && s.lock.None? && s.reg.Pointed()
      && message in s.archive && message.text.Content?
    case Send(pid) => pid in s.procs && s.procs[pid].Retaining?
    case ReturnRetain(pid) => pid in s.procs && s.procs[pid].Retaining? && s.procs[pid].sent
    case RecordReceipt(pid) => pid in s.procs && s.procs[pid].Retained?
    case RecordIgnored(message) => message in s.archive && !message.text.Content?
    case BeginCleanup(pid, gen) =>
      && pid !in s.procs && s.lock.None? && gen in s.reg.gens && s.reg.active != Some(gen)
      && s.reg.gens[gen].status in {Failed, Superseded}
    case DeleteBank(pid) => pid in s.procs && s.procs[pid].Cleaning?
    case FinishCleanup(pid) => pid in s.procs && s.procs[pid].Cleaning?
    case Crash(pid) => pid in s.procs
  }

  /** The process ends; a transaction it had open is rolled back and its lock released. */
  function Exit(s: State, pid: ProcessId): State {
    s.(procs := Without(s.procs, pid), lock := if s.lock == Some(pid) then None else s.lock)
  }

  function Put(s: State, pid: ProcessId, process: Process): State {
    s.(procs := s.procs[pid := process])
  }

  /** A receipt is inserted once; recording a different outcome raises and changes nothing. */
  function Receipt(receipts: map<MessageId, Outcome>, message: MessageId, outcome: Outcome)
    : map<MessageId, Outcome>
  {
    if message in receipts then receipts else receipts[message := outcome]
  }

  function Apply(s: State, step: Step): State
    requires Enabled(s, step)
  {
    match step
    case Arrive(position, message) =>
      s.(archive := s.archive[..position] + [message] + s.archive[position..])
    case Bootstrap(gen, bank) =>
      var row := if gen in s.reg.gens then s.reg.gens[gen] else Generation(bank, Active, 0, 0, None);
      s.(reg := s.reg.Insert(gen, row.(status := Active, lease := None)).(active := Some(gen)))
    case Recover(now) => s.(reg := s.reg.Recover(now))
    case Start(pid, gen, bank, lease) =>
      Put(s.(reg := s.reg.Insert(gen, Generation(bank, Building, |Visible(s.archive)|, 0, Some(lease)))),
          pid, Opening(gen, bank))
    case CreateClean(pid) =>
      var p := s.procs[pid];
      Put(s.(banks := s.banks[p.bank := {}]), pid, Replaying(p.gen, p.bank, 0, [], 0))
    case Fetch(pid, limit) =>
      var p := s.procs[pid];
      var page := Page(Visible(s.archive), p.offset, limit);
      if page != [] then Put(s, pid, p.(batch := page, done := 0))
      else if p.Replaying? then Put(s, pid, Replayed(p.gen, p.bank, p.offset))
      else Put(s, pid, p.(caughtUp := true))
    case Replay(pid) =>
      var p := s.procs[pid];
      Put(s.(banks := Store(s.banks, p.bank, p.batch[p.done])), pid, p.(done := p.done + 1))
    case RecordProgress(pid, lease) =>
      var p := s.procs[pid];
      var offset := p.offset + |p.batch|;
      Put(s.(reg := s.reg.Update(p.gen, s.reg.gens[p.gen].Progressed(offset, lease))), pid,
          Replaying(p.gen, p.bank, offset, [], 0))
    case BeginSwitch(pid) =>
      var p := s.procs[pid];
      var row := s.reg.gens[p.gen];
      Put(s.(lock := Some(pid)), pid,
          Switching(p.gen, p.bank, row.total, row.replayed, [], 0, false))
    case CatchUp(pid) =>
      var p := s.procs[pid];
      Put(s, pid, p.(total := p.total + |p.batch|, offset := p.offset + |p.batch|, batch := [], done := 0))
    case CommitSwitch(pid) =>
      var p := s.procs[pid];
      var retired := if s.reg.active.Some? && s.reg.active.value != p.gen
                     then s.reg.Retire(s.reg.active.value, Superseded) else s.reg;
      Exit(s.(reg := retired.Update(p.gen, Generation(p.bank, Active, p.total, p.offset, None))
                            .(active := Some(p.gen))), pid)
    case MarkFailed(pid) =>
      var p := s.procs[pid];
      Exit(s.(reg := if s.reg.Running(p.gen) then s.reg.Retire(p.gen, Failed) else s.reg), pid)
    case BeginRetain(pid, message) =>
      Put(s.(lock := Some(pid)), pid, Retaining(message, s.reg.ActiveBank(), false))
    case Send(pid) =>
      var p := s.procs[pid];
      Put(s.(banks := Store(s.banks, p.bank, p.message.id)), pid, p.(sent := true))
    case ReturnRetain(pid) =>
      Put(s.(lock := None), pid, Retained(s.procs[pid].message))
    case RecordReceipt(pid) =>
      Exit(s.(receipts := Receipt(s.receipts, s.procs[pid].message.id, Ingested)), pid)
    case RecordIgnored(message) => s.(receipts := Receipt(s.receipts, message.id, IgnoredBlank))
    case BeginCleanup(pid, gen) =>
      Put(s.(lock := Some(pid)), pid, Cleaning(gen, s.reg.gens[gen].bank))
    case DeleteBank(pid) =>
      s.(banks := Without(s.banks, s.procs[pid].bank))
    case FinishCleanup(pid) =>
      Exit(s.(reg := s.reg.(gens := Without(s.reg.gens, s.procs[pid].gen))), pid)
    case Crash(pid) => Exit(s, pid)
  }

  function Initial(banks: map<BankId, set<MessageId>>): State {
    State([], Registry(map[], None, {}, banks.Keys), banks, map[], None, map[])
  }

  /** The state after a run, or None if some step was not enabled. */
  function Run(s: State, steps: seq<Step>): Option<State>
    decreases |steps|
  {
    if steps == [] then Some(s)
    else
      var before := Run(s, steps[..|steps| - 1]);
      if before.Some? && Enabled(before.value, steps[|steps| - 1])
      then Some(Apply(before.value, steps[|steps| - 1]))
      else None
  }
}
