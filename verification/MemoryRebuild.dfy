/** The rebuild manager and the active-generation proxy as methods over the stored
    rows. Each method is one process of the generation protocol: its `trace` is the
    run of protocol steps it performs. */
module MemoryRebuild {
  import opened Basics
  import opened GenerationProtocol
  import opened GenerationDelivery

  datatype Error =
    | BlankBank | ForeignBank | NotExplicit | NotBootstrapped | AlreadyRunning | BackendNotReady | RetainFailed
    | NotSwitchable | NotVerified | GenerationInUse

  /** How the backend answers: readiness, the messages whose retain raises, and
      whether the index check and the derived rebuild succeed. */
  datatype Backend = Backend(ready: bool, fails: set<MessageId>, verified: bool)

  /** The first `n` rows are in the bank. */
  ghost predicate Covers(bank: set<MessageId>, rows: seq<MessageId>, n: nat) {
    n <= |rows| && forall k :: 0 <= k < n ==> rows[k] in bank
  }

  /** The backend takes the first `n` rows without raising. */
  ghost predicate Accepted(backend: Backend, rows: seq<MessageId>, n: nat) {
    n <= |rows| && forall k :: 0 <= k < n ==> rows[k] !in backend.fails
  }

  lemma JoinPage(rows: seq<MessageId>, offset: nat, page: seq<MessageId>, backend: Backend, bank: set<MessageId>)
    requires offset + |page| <= |rows| && forall j :: 0 <= j < |page| ==> page[j] == rows[offset + j]
    ensures Covers(bank, rows, offset) && Covers(bank, page, |page|) ==> Covers(bank, rows, offset + |page|)
    ensures Accepted(backend, rows, offset) && Accepted(backend, page, |page|) ==> Accepted(backend, rows, offset + |page|)
    ensures !Accepted(backend, page, |page|) ==> !Accepted(backend, rows, |rows|)
  {
    forall k | offset <= k < offset + |page| ensures rows[k] == page[k - offset] {
      assert page[k - offset] == rows[offset + (k - offset)];
    }
  }

  // ----- cleanup runs

  /** A generation's row and bank are gone. */
  function WithoutGeneration(s: State, gen: GenerationId): State
    requires gen in s.reg.gens
  {
    s.(reg := s.reg.(gens := Without(s.reg.gens, gen)), banks := Without(s.banks, s.reg.gens[gen].bank))
  }

  function Cleaned(s: State, ids: seq<GenerationId>): State {
    if ids == [] then s
    else
      var before, gen := Cleaned(s, ids[..|ids| - 1]), ids[|ids| - 1];
      if gen in before.reg.gens then WithoutGeneration(before, gen) else before
  }

  /** Distinct dead generations, and an idle process to delete them. */
  ghost predicate MayClean(s: State, pid: ProcessId, ids: seq<GenerationId>) {
    && pid !in s.procs && s.lock.None?
    && (forall i :: 0 <= i < |ids| ==>
          && ids[i] in s.reg.gens && s.reg.active != Some(ids[i]) && s.reg.gens[ids[i]].status in {Failed, Superseded})
    && (forall i, j :: 0 <= i < j < |ids| ==> ids[i] != ids[j])
  }

  /** The run of one cleanup transaction. */
  lemma CleanupSteps(start: State, trace0: seq<Step>, s: State, pid: ProcessId, gen: GenerationId)
    returns (trace: seq<Step>)
    requires Run(start, trace0) == Some(s) && Enabled(s, BeginCleanup(pid, gen))
    ensures Run(start, trace) == Some(WithoutGeneration(s, gen))
  {
    var bank := s.reg.gens[gen].bank;
    var locked := s.(lock := Some(pid), procs := s.procs[pid := Cleaning(gen, bank)]);
    trace := Extend(start, trace0, s, BeginCleanup(pid, gen), locked);
    var emptied := locked.(banks := Without(s.banks, bank));
    trace := Extend(start, trace, locked, DeleteBank(pid), emptied);
    PutThenRemove(s.procs, pid, Cleaning(gen, bank));
    trace := Extend(start, trace, emptied, FinishCleanup(pid), WithoutGeneration(s, gen));
  }

  lemma PutThenRemove<K, V>(m: map<K, V>, key: K, value: V)
    requires key !in m
    ensures Without(m[key := value], key) == m
  {
  }

  lemma PutTwice<K, V>(m: map<K, V>, key: K, first: V, second: V)
    ensures m[key := first][key := second] == m[key := second]
  {
  }

  /** Cleaning touches only the listed rows. */
  lemma {:induction false} CleanedFrame(s: State, pid: ProcessId, ids: seq<GenerationId>)
    requires MayClean(s, pid, ids)
    ensures var t := Cleaned(s, ids);
            && t.procs == s.procs && t.lock == s.lock && t.reg.active == s.reg.active
            && (forall g :: g in t.reg.gens <==> g in s.reg.gens && g !in ids)
            && (forall g :: g in t.reg.gens ==> t.reg.gens[g] == s.reg.gens[g])
  {
    if ids != [] {
      var most := ids[..|ids| - 1];
      assert ids == most + [ids[|ids| - 1]];
      assert forall i :: 0 <= i < |most| ==> most[i] == ids[i];
      CleanedFrame(s, pid, most);
    }
  }

  /** Cleaning deletes the banks of the listed generations and no other. */
  lemma {:induction false} CleanedBanks(s: State, pid: ProcessId, ids: seq<GenerationId>)
    requires MayClean(s, pid, ids)
    ensures BanksWithout(s, ids, Cleaned(s, ids).banks)
  {
    if ids != [] {
      var most, gen := ids[..|ids| - 1], ids[|ids| - 1];
      assert ids == most + [gen];
      assert forall i :: 0 <= i < |most| ==> most[i] == ids[i];
      CleanedBanks(s, pid, most);
      CleanedFrame(s, pid, most);
    }
  }

  ghost predicate BanksWithout(s: State, ids: seq<GenerationId>, banks: map<BankId, set<MessageId>>) {
    && (forall b :: b in banks <==> b in s.banks && forall g :: g in ids && g in s.reg.gens ==> s.reg.gens[g].bank != b)
    && (forall b :: b in banks ==> banks[b] == s.banks[b])
  }

  lemma CleanedOne(s: State, pid: ProcessId, ids: seq<GenerationId>, gen: GenerationId)
    requires MayClean(s, pid, ids) && gen in Cleaned(s, ids).reg.gens
    requires s.reg.active != Some(gen) && Cleaned(s, ids).reg.gens[gen].status in {Failed, Superseded}
    ensures MayClean(s, pid, ids + [gen]) && Cleaned(s, ids + [gen]) == WithoutGeneration(Cleaned(s, ids), gen)
  {
    CleanedFrame(s, pid, ids);
    assert (ids + [gen])[..|ids|] == ids;
  }

  lemma {:induction false} CleanedRun(s: State, pid: ProcessId, ids: seq<GenerationId>) returns (trace: seq<Step>)
    requires MayClean(s, pid, ids)
    ensures Run(s, trace) == Some(Cleaned(s, ids))
  {
    if ids == [] {
      trace := [];
    } else {
      var most, gen := ids[..|ids| - 1], ids[|ids| - 1];
      assert forall i :: 0 <= i < |most| ==> most[i] == ids[i];
      trace := CleanedRun(s, pid, most);
      CleanedFrame(s, pid, most);
      CleanedOne(s, pid, most, gen);
      trace := CleanupSteps(s, trace, Cleaned(s, most), pid, gen);
    }
  }

  /** The run of one proxied retain: confirmed, or rolled back when the backend raises. */
  lemma RetainSteps(s: State, pid: ProcessId, message: Message, ok: bool) returns (trace: seq<Step>)
    requires Enabled(s, BeginRetain(pid, message))
    ensures Run(s, trace) == Some(if !ok then s else
              s.(banks := Store(s.banks, s.reg.ActiveBank(), message.id), procs := s.procs[pid := Retained(message)]))
  {
    var locked := s.(lock := Some(pid), procs := s.procs[pid := Retaining(message, s.reg.ActiveBank(), false)]);
    trace := Extend(s, [], s, BeginRetain(pid, message), locked);
    if ok {
      trace := SendSteps(s, trace, locked, pid);
      PutTwice(s.procs, pid, locked.procs[pid], Retained(message));
    } else {
      PutThenRemove(s.procs, pid, locked.procs[pid]);
      trace := Extend(s, trace, locked, Crash(pid), s);
    }
  }

  lemma SendSteps(start: State, trace0: seq<Step>, s: State, pid: ProcessId) returns (trace: seq<Step>)
    requires Run(start, trace0) == Some(s) && pid in s.procs && s.procs[pid].Retaining?
    ensures Run(start, trace) == Some(s.(banks := Store(s.banks, s.procs[pid].bank, s.procs[pid].message.id),
                                         procs := s.procs[pid := Retained(s.procs[pid].message)], lock := None))
  {
    var process := s.procs[pid];
    var sent := s.(banks := Store(s.banks, process.bank, process.message.id), procs := s.procs[pid := process.(sent := true)]);
    trace := Extend(start, trace0, s, Send(pid), sent);
    PutTwice(s.procs, pid, process.(sent := true), Retained(process.message));
    trace := Extend(start, trace, sent, ReturnRetain(pid),
                    sent.(procs := s.procs[pid := Retained(process.message)], lock := None));
  }

  /** While a generation is pointed to and no transaction holds the registry row, an idle worker
      can bring any archived message to its receipt. */
  lemma EveryMessageCanBeReceipted(s: State, pid: ProcessId, m: Message) returns (trace: seq<Step>)
    requires m in s.archive && m.id !in s.receipts && pid !in s.procs && s.lock.None? && s.reg.Pointed()
    ensures Run(s, trace) == Some(if m.text.Content?
              then s.(banks := Store(s.banks, s.reg.ActiveBank(), m.id), receipts := s.receipts[m.id := Ingested])
              else s.(receipts := s.receipts[m.id := IgnoredBlank]))
  {
    if m.text.Content? {
      trace := RetainSteps(s, pid, m, true);
      var retained := s.(banks := Store(s.banks, s.reg.ActiveBank(), m.id), procs := s.procs[pid := Retained(m)]);
      PutThenRemove(s.procs, pid, Retained(m));
      trace := Extend(s, trace, retained, RecordReceipt(pid),
                      s.(banks := retained.banks, receipts := s.receipts[m.id := Ingested]));
    } else {
      trace := Extend(s, [], s, RecordIgnored(m), s.(receipts := s.receipts[m.id := IgnoredBlank]));
    }
  }

  /** The banks once the first `n` messages of a batch are stored. */
  function StoreFirst(banks: map<BankId, set<MessageId>>, bank: BankId, batch: seq<MessageId>, n: nat)
    : map<BankId, set<MessageId>>
    requires n <= |batch|
  {
    if n == 0 then banks else Store(StoreFirst(banks, bank, batch, n - 1), bank, batch[n - 1])
  }

  lemma {:induction false} StoreFirstCovers(banks: map<BankId, set<MessageId>>, bank: BankId, batch: seq<MessageId>, n: nat)
    requires n <= |batch|
    ensures Bank(banks, bank) <= Bank(StoreFirst(banks, bank, batch, n), bank)
    ensures Covers(Bank(StoreFirst(banks, bank, batch, n), bank), batch, n)
  {
    if n > 0 {
      StoreFirstCovers(banks, bank, batch, n - 1);
    }
  }

  /** The state once process `pid` has stored the first `n` messages of its page. */
  function StoredFirst(s: State, pid: ProcessId, n: nat): State
    requires pid in s.procs && (s.procs[pid].Replaying? || s.procs[pid].Switching?) && n <= |s.procs[pid].batch|
  {
    s.(banks := StoreFirst(s.banks, s.procs[pid].bank, s.procs[pid].batch, n),
       procs := s.procs[pid := s.procs[pid].(done := n)])
  }

  lemma StoreOne(s: State, pid: ProcessId, n: nat)
    requires pid in s.procs && (s.procs[pid].Replaying? || s.procs[pid].Switching?) && n < |s.procs[pid].batch|
    ensures Enabled(StoredFirst(s, pid, n), Replay(pid))
    ensures Apply(StoredFirst(s, pid, n), Replay(pid)) == StoredFirst(s, pid, n + 1)
  {
    PutTwice(s.procs, pid, s.procs[pid].(done := n), s.procs[pid].(done := n + 1));
  }

  /** The run of the first `n` retains of a batch. */
  lemma {:induction false} ReplaySteps(start: State, trace0: seq<Step>, s: State, pid: ProcessId, n: nat) returns (trace: seq<Step>)
    requires Run(start, trace0) == Some(s) && pid in s.procs && (s.procs[pid].Replaying? || s.procs[pid].Switching?)
    requires s.procs[pid].done == 0 && n <= |s.procs[pid].batch|
    ensures Run(start, trace) == Some(StoredFirst(s, pid, n))
  {
    if n == 0 {
      trace := trace0;
      assert s.procs[pid := s.procs[pid].(done := 0)] == s.procs;
    } else {
      trace := ReplaySteps(start, trace0, s, pid, n - 1);
      StoreOne(s, pid, n - 1);
      trace := Extend(start, trace, StoredFirst(s, pid, n - 1), Replay(pid), StoredFirst(s, pid, n));
    }
  }

  class MemoryGenerationManager {
    const pid: ProcessId
    const batchSize: nat
    const leaseFor: nat
    /** The banks that generations of other backends use. */
    const foreignBanks: set<BankId>

    var archive: seq<Message>
    var generations: map<GenerationId, Generation>
    var activeGeneration: Option<GenerationId>
    var banks: map<BankId, set<MessageId>>
    var receipts: map<MessageId, Outcome>
    ghost var rowLock: Option<ProcessId>
    ghost var procs: map<ProcessId, Process>
    ghost var usedGens: set<GenerationId>
    ghost var usedBanks: set<BankId>

    ghost function S(): State
      reads this
    {
      State(archive, Registry(generations, activeGeneration, usedGens, usedBanks), banks, receipts, rowLock, procs)
    }

    /** This manager is between calls and nobody holds the registry row. */
    ghost predicate Idle()
      reads this
    {
      pid !in procs && rowLock.None? && generations.Keys <= usedGens
    }

    constructor (pid: ProcessId, batchSize: nat, leaseFor: nat, existing: map<BankId, set<MessageId>>,
                 foreignBanks: set<BankId>)
      requires batchSize > 0
      ensures Idle() && S() == Initial(existing)
      ensures this.pid == pid && this.batchSize == batchSize && this.leaseFor == leaseFor
      ensures this.foreignBanks == foreignBanks
    {
      this.pid, this.batchSize, this.leaseFor, this.foreignBanks := pid, batchSize, leaseFor, foreignBanks;
      archive, generations, activeGeneration, banks, receipts := [], map[], None, existing, map[];
      rowLock, procs, usedGens, usedBanks := None, map[], {}, existing.Keys;
    }

    /** Registers the configured bank once; later calls return the pointed generation. A
        blank bank name (None) and a bank of another backend are refused. */
    method BootstrapExisting(bank: Option<BankId>, newId: GenerationId) returns (r: Result<GenerationId, Error>)
      requires Idle() && newId !in usedGens
      modifies this`generations, this`activeGeneration, this`usedGens, this`usedBanks
      ensures Idle() && (r == Err(BlankBank) <==> bank.None?)
      ensures r == Err(ForeignBank) <==> bank.Some? && old(activeGeneration).None? && bank.value in foreignBanks
      ensures r.Err? ==> (r.error == BlankBank || r.error == ForeignBank) && S() == old(S())
      ensures r.Ok? ==> activeGeneration == Some(r.value)
      ensures r.Ok? && old(activeGeneration).Some? ==> S() == old(S())
      ensures r.Ok? && old(activeGeneration).None? ==>
                && Enabled(old(S()), Bootstrap(r.value, bank.value))
                && S() == Apply(old(S()), Bootstrap(r.value, bank.value))
                && r.value in generations && generations[r.value].bank == bank.value
                && generations[r.value].status == Active && generations[r.value].lease.None?
                && (forall g :: g in old(generations) && old(generations)[g].bank == bank.value ==> r.value in old(generations))
                && (r.value !in old(generations) ==> r.value == newId && generations[newId] == Generation(bank.value, Active, 0, 0, None))
                && (r.value in old(generations) ==> generations[r.value] == old(generations)[r.value].(status := Active, lease := None))
                && (forall g :: g in generations && g != r.value ==> g in old(generations) && generations[g] == old(generations)[g])
    {
      if bank.None? {
        return Err(BlankBank);
      }
      if activeGeneration.Some? {
        return Ok(activeGeneration.value);
      }
      var gen := newId;
      if existing :| existing in generations && generations[existing].bank == bank.value {
        gen := existing;
      }
      if bank.value in foreignBanks {
        return Err(ForeignBank);
      }
      var row := if gen in generations then generations[gen] else Generation(bank.value, Active, 0, 0, None);
      generations := generations[gen := row.(status := Active, lease := None)];
      activeGeneration := Some(gen);
      usedGens, usedBanks := usedGens + {gen}, usedBanks + {bank.value};
      return Ok(gen);
    }

    /** Fails every BUILDING generation whose lease ran out; returns how many. */
    method RecoverInterrupted(now: Time) returns (count: nat)
      requires Idle()
      modifies this`generations
      ensures Idle() && S() == Apply(old(S()), Recover(now))
      ensures generations.Keys == old(generations).Keys
      ensures forall g :: g in generations ==> var row := old(generations)[g];
                generations[g] == if row.status == Building && row.lease.Some? && row.lease.value <= now
                                  then row.(status := Failed, lease := None) else row
      ensures count == |set g | g in old(generations) && old(generations)[g].status == Building
                              && old(generations)[g].lease.Some? && old(generations)[g].lease.value <= now|
    {
      var expired := set g | g in generations && generations[g].Expired(now);
      var todo := expired;
      count := 0;
      while todo != {}
        invariant todo <= expired && count + |todo| == |expired|
        invariant generations.Keys == old(generations).Keys
        invariant forall g :: g in todo ==> generations[g] == old(generations)[g]
        invariant forall g :: g in generations && g !in expired ==> generations[g] == old(generations)[g]
        invariant forall g :: g in expired && g !in todo ==>
                    generations[g] == old(generations)[g].(status := Failed, lease := None)
      {
        var g :| g in todo;
        generations := generations[g := generations[g].(status := Failed, lease := None)];
        todo := todo - {g};
        count := count + 1;
      }
      assert generations == old(S()).reg.Recover(now).gens;
      assert expired == set g | g in old(generations) && old(generations)[g].status == Building
                                && old(generations)[g].lease.Some? && old(generations)[g].lease.value <= now;
    }

    /** Recovers stale rebuilds, then journals a new BUILDING generation if none is left. */
    method StartRebuild(now: Time, gen: GenerationId, bank: BankId) returns (r: Result<GenerationId, Error>)
      requires Idle() && gen !in usedGens && bank !in usedBanks
      modifies this`generations, this`usedGens, this`usedBanks, this`procs
      ensures var recovered := Apply(old(S()), Recover(now));
              match r
              case Ok(g) =>
                && g == gen && Enabled(recovered, Start(pid, gen, bank, now + leaseFor))
                && S() == Apply(recovered, Start(pid, gen, bank, now + leaseFor))
              case Err(e) =>
                && Idle() && S() == recovered
                && e == (if activeGeneration.None? then NotBootstrapped else AlreadyRunning)
      ensures r == Err(NotBootstrapped) <==> old(activeGeneration).None?
      ensures r == Err(AlreadyRunning) <==>
                old(activeGeneration).Some?
                && exists g :: g in old(generations) && old(generations)[g].status == Building
                               && (old(generations)[g].lease.None? || old(generations)[g].lease.value > now)
      ensures r.Ok? ==> gen in generations
                        && generations[gen] == Generation(bank, Building, |Visible(archive)|, 0, Some(now + leaseFor))
    {
      var _ := RecoverInterrupted(now);
      if activeGeneration.None? {
        return Err(NotBootstrapped);
      }
      if running :| running in generations && generations[running].status == Building {
        assert S().reg.Running(running);
        return Err(AlreadyRunning);
      }
      Journal(gen, bank, now + leaseFor);
      return Ok(gen);
    }

    /** Journals the new generation, BUILDING and leased. */
    method Journal(gen: GenerationId, bank: BankId, lease: Time)
      requires Enabled(S(), Start(pid, gen, bank, lease))
      modifies this`generations, this`usedGens, this`usedBanks, this`procs
      ensures S() == Apply(old(S()), Start(pid, gen, bank, lease))
      ensures generations == old(generations)[gen := Generation(bank, Building, |Visible(archive)|, 0, Some(lease))]
    {
      generations := generations[gen := Generation(bank, Building, |Visible(archive)|, 0, Some(lease))];
      usedGens, usedBanks := usedGens + {gen}, usedBanks + {bank};
      procs := procs[pid := Opening(gen, bank)];
    }

    /** One idempotent retain into the bank under construction, and the page position after it. */
    method RetainMessage(bank: BankId, message: MessageId)
      requires pid in procs && (procs[pid].Replaying? || procs[pid].Switching?)
      requires procs[pid].bank == bank && procs[pid].done < |procs[pid].batch| && procs[pid].batch[procs[pid].done] == message
      modifies this`banks, this`procs
      ensures S() == Apply(old(S()), Replay(pid))
      ensures banks == Store(old(banks), bank, message)
      ensures procs == old(procs)[pid := old(procs)[pid].(done := old(procs)[pid].done + 1)]
    {
      banks := Store(banks, bank, message);
      procs := procs[pid := procs[pid].(done := procs[pid].done + 1)];
    }

    /** Retains `batch` in order; stops at the first message the backend refuses. */
    method RetainBatch(bank: BankId, batch: seq<MessageId>, backend: Backend) returns (ok: bool, ghost done: nat)
      requires pid in procs && (procs[pid].Replaying? || procs[pid].Switching?)
      requires procs[pid].bank == bank && procs[pid].batch == batch && procs[pid].done == 0
      modifies this`banks, this`procs
      ensures done <= |batch| && banks == StoreFirst(old(banks), bank, batch, done)
      ensures procs == old(procs)[pid := old(procs)[pid].(done := done)]
      ensures ok <==> Accepted(backend, batch, |batch|)
      ensures ok ==> done == |batch|
    {
      var i := 0;
      assert procs[pid := procs[pid].(done := 0)] == procs;
      while i < |batch|
        invariant i <= |batch| && banks == StoreFirst(old(banks), bank, batch, i)
        invariant procs == old(procs)[pid := old(procs)[pid].(done := i)]
        invariant forall k :: 0 <= k < i ==> batch[k] !in backend.fails
      {
        if batch[i] in backend.fails {
          return false, i;
        }
        RetainMessage(bank, batch[i]);
        i := i + 1;
      }
      return true, i;
    }

    /** Commits the progress of a finished page while the generation is still BUILDING. */
    method RecordRebuildProgress(gen: GenerationId, replayed: nat, now: Time) returns (ok: bool)
      requires pid in procs && procs[pid].Replaying? && procs[pid].gen == gen
      requires procs[pid].batch != [] && procs[pid].done == |procs[pid].batch|
      requires replayed == procs[pid].offset + |procs[pid].batch|
      modifies this`generations, this`procs
      ensures ok <==> gen in old(generations) && old(generations)[gen].status == Building
      ensures ok ==> Enabled(old(S()), RecordProgress(pid, now + leaseFor))
      ensures ok ==> S() == Apply(old(S()), RecordProgress(pid, now + leaseFor))
      ensures ok ==> gen in old(generations) && var row := old(generations)[gen];
                     && generations == old(generations)[gen := Generation(row.bank, Building,
                          if row.total < replayed then replayed else row.total, replayed, Some(now + leaseFor))]
                     && procs == old(procs)[pid := Replaying(gen, old(procs)[pid].bank, replayed, [], 0)]
      ensures !ok ==> generations == old(generations) && procs == old(procs)
    {
      if gen !in generations || generations[gen].status != Building {
        return false;
      }
      var row := generations[gen];
      var total := if row.total < replayed then replayed else row.total;
      generations := generations[gen := row.(replayed := replayed, total := total, lease := Some(now + leaseFor))];
      procs := procs[pid := Replaying(gen, procs[pid].bank, replayed, [], 0)];
      return true;
    }

    /** Everything up to the recorded offset is in the generation's bank. */
    ghost predicate ReplayedTo(gen: GenerationId, bank: BankId, offset: nat)
      reads this
    {
      && Covers(Bank(banks, bank), Visible(archive), offset)
      && (gen in generations ==> generations[gen].bank == bank)
      && (S().reg.Running(gen) ==> generations[gen].replayed == offset)
    }

    /** Only this rebuild's own row changed since `rows`, and not its bank or status. */
    twostate predicate OwnRowOnly(gen: GenerationId)
      reads this
    {
      && generations.Keys == old(generations).Keys
      && (forall g :: g in generations && g != gen ==> generations[g] == old(generations)[g])
      && (gen in generations ==> && generations[gen].status == old(generations)[gen].status
                                 && generations[gen].bank == old(generations)[gen].bank)
    }

    /** Reads the next page; an empty one ends the replay. */
    method FetchPage(gen: GenerationId, bank: BankId, offset: nat, ghost start: State, ghost trace: seq<Step>)
      returns (page: seq<MessageId>)
      requires batchSize > 0 && pid in procs && procs[pid] == Replaying(gen, bank, offset, [], 0)
      requires Run(start, trace) == Some(S())
      modifies this`procs
      ensures page == Page(Visible(archive), offset, batchSize)
      ensures |page| <= batchSize && (offset <= |Visible(archive)| ==> |page| == batchSize || offset + |page| == |Visible(archive)|)
      ensures Run(start, trace + [Fetch(pid, batchSize)]) == Some(S())
      ensures pid in procs
      ensures procs[pid] == if page == [] then Replayed(gen, bank, offset) else Replaying(gen, bank, offset, page, 0)
    {
      OneMoreStep(start, trace, Fetch(pid, batchSize));
      page := Page(Visible(archive), offset, batchSize);
      procs := procs[pid := if page == [] then Replayed(gen, bank, offset) else Replaying(gen, bank, offset, page, 0)];
    }

    /** Retains one fetched page and records the progress. */
    method ReplayPage(gen: GenerationId, bank: BankId, offset: nat, page: seq<MessageId>, now: Time,
                      backend: Backend, ghost start: State, ghost trace0: seq<Step>)
      returns (ok: bool, ghost trace: seq<Step>)
      requires page != [] && page == Page(Visible(archive), offset, batchSize)
      requires pid in procs && procs[pid] == Replaying(gen, bank, offset, page, 0)
      requires Run(start, trace0) == Some(S()) && ReplayedTo(gen, bank, offset)
      modifies this`generations, this`banks, this`procs
      ensures Run(start, trace) == Some(S()) && OwnRowOnly(gen)
      ensures pid in procs && procs[pid].Replaying? && procs[pid].gen == gen
      ensures old(S()).reg.Running(gen) ==> (ok <==> Accepted(backend, page, |page|))
      ensures ok ==> Accepted(backend, page, |page|)
      ensures ok ==> procs[pid] == Replaying(gen, bank, offset + |page|, [], 0)
      ensures ok ==> ReplayedTo(gen, bank, offset + |page|)
    {
      ok, trace := StorePage(bank, page, backend, start, trace0);
      if !ok {
        return false, trace;
      }
      ok := RecordRebuildProgress(gen, offset + |page|, now);
      if ok {
        OneMoreStep(start, trace, RecordProgress(pid, now + leaseFor));
        trace := trace + [RecordProgress(pid, now + leaseFor)];
      }
      JoinPage(Visible(archive), offset, page, backend, Bank(banks, bank));
    }

    /** Stores a page, as a run of the protocol. */
    method StorePage(bank: BankId, page: seq<MessageId>, backend: Backend, ghost start: State, ghost trace0: seq<Step>)
      returns (ok: bool, ghost trace: seq<Step>)
      requires pid in procs && (procs[pid].Replaying? || procs[pid].Switching?) && Run(start, trace0) == Some(S())
      requires procs[pid].bank == bank && procs[pid].batch == page && procs[pid].done == 0
      modifies this`banks, this`procs
      ensures Run(start, trace) == Some(S()) && (ok <==> Accepted(backend, page, |page|))
      ensures Bank(old(banks), bank) <= Bank(banks, bank) && (ok ==> Covers(Bank(banks, bank), page, |page|))
      ensures pid in procs && exists done :: 0 <= done <= |page| && (ok ==> done == |page|)
                                             && procs[pid] == old(procs[pid]).(done := done)
    {
      ghost var done;
      ghost var before := S();
      ok, done := RetainBatch(bank, page, backend);
      trace := ReplaySteps(start, trace0, before, pid, done);
      StoreFirstCovers(before.banks, bank, page, done);
    }

    /** Replays the archive page by page into the clean bank. */
    method ReplayArchive(gen: GenerationId, bank: BankId, now: Time, backend: Backend,
                         ghost start: State, ghost trace0: seq<Step>)
      returns (ok: bool, ghost trace: seq<Step>)
      requires batchSize > 0 && pid in procs && procs[pid] == Replaying(gen, bank, 0, [], 0)
      requires Run(start, trace0) == Some(S()) && ReplayedTo(gen, bank, 0)
      modifies this`generations, this`banks, this`procs
      ensures Run(start, trace) == Some(S()) && OwnRowOnly(gen)
      ensures pid in procs && procs[pid].Rebuilds() && procs[pid].gen == gen && !procs[pid].HoldsLock()
      ensures old(S()).reg.Running(gen) ==>
                (ok <==> Accepted(backend, Visible(archive), |Visible(archive)|))
      ensures ok ==> && procs[pid] == Replayed(gen, bank, |Visible(archive)|)
                     && ReplayedTo(gen, bank, |Visible(archive)|)
    {
      trace := trace0;
      var offset := 0;
      while true
        invariant pid in procs && procs[pid] == Replaying(gen, bank, offset, [], 0)
        invariant Run(start, trace) == Some(S()) && ReplayedTo(gen, bank, offset) && OwnRowOnly(gen)
        invariant Accepted(backend, Visible(archive), offset)
        decreases |Visible(archive)| - offset
      {
        var count;
        ok, count, trace := ReplayNextPage(gen, bank, offset, now, backend, start, trace);
        if !ok || count == 0 {
          return;
        }
        offset := offset + count;
      }
    }

    /** Fetches the next page and, unless the archive is exhausted, replays it. */
    method ReplayNextPage(gen: GenerationId, bank: BankId, offset: nat, now: Time, backend: Backend,
                          ghost start: State, ghost trace0: seq<Step>)
      returns (ok: bool, count: nat, ghost trace: seq<Step>)
      requires batchSize > 0 && pid in procs && procs[pid] == Replaying(gen, bank, offset, [], 0)
      requires Run(start, trace0) == Some(S()) && ReplayedTo(gen, bank, offset)
      requires Accepted(backend, Visible(archive), offset)
      modifies this`generations, this`banks, this`procs
      ensures Run(start, trace) == Some(S()) && OwnRowOnly(gen)
      ensures pid in procs && procs[pid].Rebuilds() && procs[pid].gen == gen && !procs[pid].HoldsLock()
      ensures !ok && old(S()).reg.Running(gen) ==> !Accepted(backend, Visible(archive), |Visible(archive)|)
      ensures ok ==> offset + count <= |Visible(archive)| && ReplayedTo(gen, bank, offset + count)
                     && Accepted(backend, Visible(archive), offset + count)
      ensures ok ==> procs[pid] == if count == 0 then Replayed(gen, bank, offset)
                                   else Replaying(gen, bank, offset + count, [], 0)
      ensures ok && count == 0 ==> offset == |Visible(archive)|
    {
      var page := FetchPage(gen, bank, offset, start, trace0);
      trace := trace0 + [Fetch(pid, batchSize)];
      if page == [] {
        return true, 0, trace;
      }
      JoinPage(Visible(archive), offset, page, backend, {});
      ok, trace := ReplayPage(gen, bank, offset, page, now, backend, start, trace);
      return ok, |page|, trace;
    }

    /** Locks the registry row and reads the generation; fails if it is no longer BUILDING. */
    method LockForSwitch(gen: GenerationId) returns (ok: bool)
      requires pid in procs && procs[pid].Replayed? && procs[pid].gen == gen && rowLock.None?
      modifies this`rowLock, this`procs
      ensures ok <==> gen in old(generations) && old(generations)[gen].status == Building
      ensures ok ==> Enabled(old(S()), BeginSwitch(pid)) && S() == Apply(old(S()), BeginSwitch(pid))
      ensures ok ==> gen in generations && pid in procs
                     && procs[pid] == Switching(gen, old(procs)[pid].bank, generations[gen].total,
                                                generations[gen].replayed, [], 0, false)
      ensures !ok ==> S() == old(S())
    {
      if gen !in generations || generations[gen].status != Building {
        return false;
      }
      rowLock := Some(pid);
      procs := procs[pid := Switching(gen, procs[pid].bank, generations[gen].total, generations[gen].replayed, [], 0, false)];
      return true;
    }

    /** Reads the rows committed since the last page, inside the switch transaction. */
    method FetchCatchUp(gen: GenerationId, bank: BankId, total: nat, offset: nat,
                        ghost start: State, ghost trace: seq<Step>)
      returns (page: seq<MessageId>)
      requires batchSize > 0 && pid in procs && procs[pid] == Switching(gen, bank, total, offset, [], 0, false)
      requires Run(start, trace) == Some(S())
      modifies this`procs
      ensures page == Page(Visible(archive), offset, batchSize)
      ensures |page| <= batchSize && (offset <= |Visible(archive)| ==> |page| == batchSize || offset + |page| == |Visible(archive)|)
      ensures Run(start, trace + [Fetch(pid, batchSize)]) == Some(S())
      ensures pid in procs && procs[pid] == Switching(gen, bank, total, offset, page, 0, page == [])
    {
      OneMoreStep(start, trace, Fetch(pid, batchSize));
      page := Page(Visible(archive), offset, batchSize);
      procs := procs[pid := Switching(gen, bank, total, offset, page, 0, page == [])];
    }

    /** The transaction's own counters move past a retained page. */
    method AdvanceCatchUp(gen: GenerationId, bank: BankId, total: nat, offset: nat, page: seq<MessageId>)
      requires page != [] && pid in procs
      requires procs[pid] == Switching(gen, bank, total, offset, page, |page|, false)
      modifies this`procs
      ensures Enabled(old(S()), CatchUp(pid)) && S() == Apply(old(S()), CatchUp(pid))
      ensures pid in procs
      ensures procs[pid] == Switching(gen, bank, total + |page|, offset + |page|, [], 0, false)
    {
      procs := procs[pid := Switching(gen, bank, total + |page|, offset + |page|, [], 0, false)];
    }

    /** Retains one catch-up page. */
    method CatchUpPage(gen: GenerationId, bank: BankId, total: nat, offset: nat, page: seq<MessageId>,
                       backend: Backend, ghost start: State, ghost trace0: seq<Step>)
      returns (ok: bool, ghost trace: seq<Step>)
      requires page != [] && page == Page(Visible(archive), offset, batchSize)
      requires pid in procs && procs[pid] == Switching(gen, bank, total, offset, page, 0, false)
      requires Run(start, trace0) == Some(S()) && Covers(Bank(banks, bank), Visible(archive), offset)
      modifies this`banks, this`procs
      ensures Run(start, trace) == Some(S())
      ensures pid in procs && procs[pid].Switching? && procs[pid].gen == gen
      ensures ok <==> Accepted(backend, page, |page|)
      ensures ok ==> procs[pid] == Switching(gen, bank, total + |page|, offset + |page|, [], 0, false)
      ensures ok ==> Covers(Bank(banks, bank), Visible(archive), offset + |page|)
    {
      ok, trace := StorePage(bank, page, backend, start, trace0);
      if ok {
        AdvanceCatchUp(gen, bank, total, offset, page);
        OneMoreStep(start, trace, CatchUp(pid));
        trace := trace + [CatchUp(pid)];
        JoinPage(Visible(archive), offset, page, backend, Bank(banks, bank));
      }
    }

    /** Supersedes the previous generation, activates the new one and moves the pointer. */
    method MovePointer(gen: GenerationId, bank: BankId, total: nat, replayed: nat)
      requires pid in procs && procs[pid] == Switching(gen, bank, total, replayed, [], 0, true)
      requires rowLock == Some(pid)
      modifies this`generations, this`activeGeneration, this`rowLock, this`procs
      ensures S() == Apply(old(S()), CommitSwitch(pid))
      ensures activeGeneration == Some(gen) && gen in generations
      ensures generations[gen] == Generation(bank, Active, total, replayed, None)
      ensures pid !in procs && rowLock.None?
      ensures forall g :: g in generations && g != gen ==>
                && g in old(generations)
                && generations[g] == if old(activeGeneration) == Some(g)
                                     then old(generations)[g].(status := Superseded, lease := None)
                                     else old(generations)[g]
    {
      if activeGeneration.Some? && activeGeneration.value != gen && activeGeneration.value in generations {
        var previous := activeGeneration.value;
        generations := generations[previous := generations[previous].(status := Superseded, lease := None)];
      }
      generations := generations[gen := Generation(bank, Active, total, replayed, None)];
      activeGeneration := Some(gen);
      rowLock := None;
      procs := Without(procs, pid);
    }

    /** Replays whatever was committed since the replay ended, until no row is left. */
    method CatchUpArchive(gen: GenerationId, bank: BankId, backend: Backend,
                          ghost start: State, ghost trace0: seq<Step>)
      returns (ok: bool, total: nat, replayed: nat, ghost trace: seq<Step>)
      requires batchSize > 0 && gen in generations && Run(start, trace0) == Some(S())
      requires pid in procs
      requires procs[pid] == Switching(gen, bank, generations[gen].total, generations[gen].replayed, [], 0, false)
      requires Covers(Bank(banks, bank), Visible(archive), generations[gen].replayed)
      requires Accepted(backend, Visible(archive), generations[gen].replayed)
      modifies this`banks, this`procs
      ensures Run(start, trace) == Some(S())
      ensures pid in procs && procs[pid].Switching? && procs[pid].gen == gen
      ensures ok <==> Accepted(backend, Visible(archive), |Visible(archive)|)
      ensures ok ==> && replayed == |Visible(archive)| && Covers(Bank(banks, bank), Visible(archive), replayed)
                     && total - replayed == generations[gen].total - generations[gen].replayed
                     && procs[pid] == Switching(gen, bank, total, replayed, [], 0, true)
    {
      trace := trace0;
      total, replayed := generations[gen].total, generations[gen].replayed;
      var caughtUp := false;
      while !caughtUp
        invariant pid in procs && procs[pid] == Switching(gen, bank, total, replayed, [], 0, caughtUp)
        invariant Run(start, trace) == Some(S())
        invariant Covers(Bank(banks, bank), Visible(archive), replayed) && Accepted(backend, Visible(archive), replayed)
        invariant caughtUp ==> replayed == |Visible(archive)|
        invariant total - replayed == generations[gen].total - generations[gen].replayed
        decreases !caughtUp, |Visible(archive)| - replayed
      {
        var count;
        ok, count, trace := CatchUpNextPage(gen, bank, total, replayed, backend, start, trace);
        if !ok {
          return;
        }
        caughtUp := count == 0;
        total, replayed := total + count, replayed + count;
      }
      ok := true;
    }

    /** Reads the next page and, unless nothing is left, retains it. */
    method CatchUpNextPage(gen: GenerationId, bank: BankId, total: nat, replayed: nat, backend: Backend,
                           ghost start: State, ghost trace0: seq<Step>)
      returns (ok: bool, count: nat, ghost trace: seq<Step>)
      requires batchSize > 0 && Run(start, trace0) == Some(S())
      requires pid in procs && procs[pid] == Switching(gen, bank, total, replayed, [], 0, false)
      requires Covers(Bank(banks, bank), Visible(archive), replayed) && Accepted(backend, Visible(archive), replayed)
      modifies this`banks, this`procs
      ensures Run(start, trace) == Some(S()) && pid in procs && procs[pid].Switching? && procs[pid].gen == gen
      ensures !ok ==> !Accepted(backend, Visible(archive), |Visible(archive)|)
      ensures ok ==> && Covers(Bank(banks, bank), Visible(archive), replayed + count)
                     && Accepted(backend, Visible(archive), replayed + count)
                     && procs[pid] == Switching(gen, bank, total + count, replayed + count, [], 0, count == 0)
      ensures ok && count == 0 ==> replayed == |Visible(archive)|
    {
      var page := FetchCatchUp(gen, bank, total, replayed, start, trace0);
      trace := trace0 + [Fetch(pid, batchSize)];
      if page == [] {
        return true, 0, trace;
      }
      JoinPage(Visible(archive), replayed, page, backend, {});
      ok, trace := CatchUpPage(gen, bank, total, replayed, page, backend, start, trace);
      return ok, |page|, trace;
    }

    /** Catches up under the registry lock until no row is left, then switches. */
    method VerifyDeriveAndSwitch(gen: GenerationId, bank: BankId, backend: Backend,
                                 ghost start: State, ghost trace0: seq<Step>)
      returns (r: Result<GenerationId, Error>, ghost trace: seq<Step>)
      requires batchSize > 0 && rowLock.None? && Run(start, trace0) == Some(S())
      requires pid in procs && procs[pid].Replayed? && procs[pid].gen == gen && procs[pid].bank == bank
      requires ReplayedTo(gen, bank, procs[pid].offset) && Accepted(backend, Visible(archive), procs[pid].offset)
      modifies this`generations, this`activeGeneration, this`banks, this`rowLock, this`procs
      ensures Run(start, trace) == Some(S())
      ensures r.Ok? <==> gen in old(generations) && old(generations)[gen].status == Building && backend.verified
                         && Accepted(backend, Visible(archive), |Visible(archive)|)
      ensures r.Ok? ==> r.value == gen && Live(gen, bank) && pid !in procs && rowLock.None?
      ensures r.Ok? ==> generations[gen].total - |Visible(archive)| == old(generations)[gen].total - old(generations)[gen].replayed
      ensures r.Ok? ==> forall g :: g in generations && g != gen ==>
                && g in old(generations)
                && generations[g] == if old(activeGeneration) == Some(g)
                                     then old(generations)[g].(status := Superseded, lease := None)
                                     else old(generations)[g]
      ensures r.Err? ==> && pid in procs && procs[pid].Rebuilds() && procs[pid].gen == gen
                         && generations == old(generations) && activeGeneration == old(activeGeneration)
                         && r.error in {NotSwitchable, RetainFailed, NotVerified}
    {
      trace := trace0;
      ghost var before := S();
      var ok := LockForSwitch(gen);
      if !ok {
        return Err(NotSwitchable), trace;
      }
      OneMoreStep(start, trace, BeginSwitch(pid));
      trace := trace + [BeginSwitch(pid)];
      var total, replayed;
      ok, total, replayed, trace := CatchUpArchive(gen, bank, backend, start, trace);
      if !ok {
        return Err(RetainFailed), trace;
      }
      if !backend.verified {
        return Err(NotVerified), trace;
      }
      OneMoreStep(start, trace, CommitSwitch(pid));
      trace := trace + [CommitSwitch(pid)];
      MovePointer(gen, bank, total, replayed);
      return Ok(gen), trace;
    }

    /** The pointed generation, ACTIVE, with every archive row replayed into its bank. */
    ghost predicate Live(gen: GenerationId, bank: BankId)
      reads this
    {
      && activeGeneration == Some(gen) && gen in generations
      && generations[gen].bank == bank && generations[gen].status == Active && generations[gen].lease.None?
      && generations[gen].replayed == |Visible(archive)|
      && Covers(Bank(banks, bank), Visible(archive), |Visible(archive)|)
    }

    /** Journals a failure; the transaction that failed is rolled back and its lock released. */
    method MarkGenerationFailed(gen: GenerationId)
      requires pid in procs && procs[pid].Rebuilds() && procs[pid].gen == gen
      modifies this`generations, this`rowLock, this`procs
      ensures Enabled(old(S()), MarkFailed(pid)) && S() == Apply(old(S()), MarkFailed(pid))
      ensures gen in generations ==> generations[gen].status != Building
      ensures generations == if gen in old(generations) && old(generations)[gen].status == Building
                             then old(generations)[gen := old(generations)[gen].(status := Failed, lease := None)]
                             else old(generations)
    {
      if gen in generations && generations[gen].status == Building {
        generations := generations[gen := generations[gen].(status := Failed, lease := None)];
      }
      rowLock := if rowLock == Some(pid) then None else rowLock;
      procs := Without(procs, pid);
    }

    /** Creates the empty bank; the health check then decides whether to replay. */
    method CreateCleanBank(gen: GenerationId, bank: BankId)
      requires pid in procs && procs[pid] == Opening(gen, bank)
      modifies this`banks, this`procs
      ensures Enabled(old(S()), CreateClean(pid)) && S() == Apply(old(S()), CreateClean(pid))
      ensures pid in procs && procs[pid] == Replaying(gen, bank, 0, [], 0) && banks == old(banks)[bank := {}]
    {
      banks := banks[bank := {}];
      procs := procs[pid := Replaying(gen, bank, 0, [], 0)];
    }

    /** Replays into a clean bank and switches; any exception fails the new generation. */
    method BuildAndSwitch(gen: GenerationId, bank: BankId, now: Time, backend: Backend,
                          ghost start: State, ghost trace0: seq<Step>)
      returns (r: Result<GenerationId, Error>, ghost trace: seq<Step>)
      requires batchSize > 0 && rowLock.None? && Run(start, trace0) == Some(S())
      requires pid in procs && procs[pid] == Opening(gen, bank)
      requires S().reg.Running(gen) && generations[gen].bank == bank && generations[gen].replayed == 0
      requires activeGeneration != Some(gen)
      modifies this`generations, this`activeGeneration, this`banks, this`rowLock, this`procs
      ensures Run(start, trace) == Some(S())
      ensures r.Ok? <==> backend.ready && backend.verified && Accepted(backend, Visible(archive), |Visible(archive)|)
      ensures r.Ok? ==> r.value == gen && Live(gen, bank)
      ensures r.Err? ==> r.error in {BackendNotReady, RetainFailed, NotVerified, NotSwitchable}
      ensures r.Err? && !backend.ready ==> r.error == BackendNotReady
      ensures r.Ok? && old(activeGeneration).Some? && old(activeGeneration).value in generations ==>
                generations[old(activeGeneration).value].status == Superseded
      ensures r.Err? ==> activeGeneration == old(activeGeneration)
      ensures r.Err? ==> gen in generations ==> generations[gen].status != Building
    {
      var ok;
      ok, trace := OpenAndReplay(gen, bank, now, backend, start, trace0);
      r := Err(if backend.ready then RetainFailed else BackendNotReady);
      if ok {
        r, trace := VerifyDeriveAndSwitch(gen, bank, backend, start, trace);
      }
      if r.Err? {
        trace := FailRebuild(gen, start, trace);
      }
    }

    /** Creates the empty bank and, if the backend is ready, replays the archive into it. */
    method OpenAndReplay(gen: GenerationId, bank: BankId, now: Time, backend: Backend,
                         ghost start: State, ghost trace0: seq<Step>)
      returns (ok: bool, ghost trace: seq<Step>)
      requires batchSize > 0 && Run(start, trace0) == Some(S())
      requires pid in procs && procs[pid] == Opening(gen, bank)
      requires S().reg.Running(gen) && generations[gen].bank == bank && generations[gen].replayed == 0
      modifies this`generations, this`banks, this`procs
      ensures Run(start, trace) == Some(S()) && OwnRowOnly(gen)
      ensures pid in procs && procs[pid].Rebuilds() && procs[pid].gen == gen && !procs[pid].HoldsLock()
      ensures ok <==> backend.ready && Accepted(backend, Visible(archive), |Visible(archive)|)
      ensures ok ==> && procs[pid] == Replayed(gen, bank, |Visible(archive)|)
                     && ReplayedTo(gen, bank, |Visible(archive)|)
    {
      OneMoreStep(start, trace0, CreateClean(pid));
      CreateCleanBank(gen, bank);
      trace := trace0 + [CreateClean(pid)];
      ok := backend.ready;
      if ok {
        ok, trace := ReplayArchive(gen, bank, now, backend, start, trace);
      }
    }

    method FailRebuild(gen: GenerationId, ghost start: State, ghost trace0: seq<Step>) returns (ghost trace: seq<Step>)
      requires pid in procs && procs[pid].Rebuilds() && procs[pid].gen == gen && Run(start, trace0) == Some(S())
      modifies this`generations, this`rowLock, this`procs
      ensures Run(start, trace) == Some(S())
      ensures gen in generations ==> generations[gen].status != Building
    {
      OneMoreStep(start, trace0, MarkFailed(pid));
      MarkGenerationFailed(gen);
      trace := trace0 + [MarkFailed(pid)];
    }

    /** The explicit rebuild. It succeeds exactly when a generation is pointed, no other
        rebuild is running once stale ones are failed, and the backend takes every
        archive row; otherwise the pointer stays where it was. */
    method Rebuild(explicit: bool, now: Time, gen: GenerationId, bank: BankId, backend: Backend)
      returns (r: Result<GenerationId, Error>, ghost trace: seq<Step>)
      requires batchSize > 0 && Idle() && gen !in usedGens && bank !in usedBanks
      requires activeGeneration.Some? ==> activeGeneration.value in usedGens
      modifies this`generations, this`activeGeneration, this`banks, this`rowLock, this`procs,
               this`usedGens, this`usedBanks
      ensures Run(old(S()), trace) == Some(S())
      ensures r.Ok? <==> && explicit && old(activeGeneration).Some?
                         && (forall g :: g in old(generations) && old(generations)[g].status == Building ==>
                               old(generations)[g].lease.Some? && old(generations)[g].lease.value <= now)
                         && backend.ready && backend.verified
                         && forall k :: 0 <= k < |Visible(archive)| ==> Visible(archive)[k] !in backend.fails
      ensures r.Ok? ==> r.value == gen && Live(gen, bank)
      ensures r.Ok? ==> && activeGeneration == Some(gen) && gen in generations && generations[gen].status == Active
                        && generations[gen].bank == bank
                        && forall k :: 0 <= k < |Visible(archive)| ==> Visible(archive)[k] in Bank(banks, bank)
      ensures r.Ok? && old(activeGeneration).value in generations ==>
                generations[old(activeGeneration).value].status == Superseded
      ensures !explicit ==> r == Err(NotExplicit) && S() == old(S())
      ensures r == Err(NotBootstrapped) <==> explicit && old(activeGeneration).None?
      ensures r == Err(AlreadyRunning) <==>
                explicit && old(activeGeneration).Some?
                && exists g :: g in old(generations) && old(generations)[g].status == Building
                               && (old(generations)[g].lease.None? || old(generations)[g].lease.value > now)
      ensures r.Err? ==> activeGeneration == old(activeGeneration)
      ensures r.Err? && gen in generations ==> generations[gen].status != Building
    {
      trace := [];
      if !explicit {
        return Err(NotExplicit), trace;
      }
      ghost var start := S();
      r := StartRebuild(now, gen, bank);
      OneMoreStep(start, [], Recover(now));
      trace := [] + [Recover(now)];
      if r.Err? {
        return;
      }
      OneMoreStep(start, trace, Start(pid, gen, bank, now + leaseFor));
      trace := trace + [Start(pid, gen, bank, now + leaseFor)];
      r, trace := BuildAndSwitch(gen, bank, now, backend, start, trace);
    }

    /** Neither pointed, nor being built, nor active: its bank may be deleted. */
    predicate Deletable(gen: GenerationId)
      requires gen in generations
      reads this`generations, this`activeGeneration
    {
      activeGeneration != Some(gen) && generations[gen].status in {Failed, Superseded}
    }

    /** Deletes the banks of the listed dead generations; stops at the first one in use. */
    method CleanupOrphans(ids: seq<GenerationId>, explicit: bool) returns (r: Result<seq<GenerationId>, Error>, ghost trace: seq<Step>)
      requires Idle()
      modifies this`generations, this`banks
      ensures Run(old(S()), trace) == Some(S()) && Idle()
      ensures r.Ok? <==> explicit && forall g :: g in ids && g in old(generations) ==>
                activeGeneration != Some(g) && old(generations)[g].status in {Failed, Superseded}
      ensures !explicit ==> r == Err(NotExplicit) && S() == old(S())
      ensures forall g :: g in generations ==> g in old(generations) && generations[g] == old(generations)[g]
      ensures r.Ok? ==> forall g :: g in old(generations) ==> (g in generations <==> g !in ids)
      ensures r.Ok? ==> forall g :: g in r.value <==> g in ids && g in old(generations)
      ensures explicit && r.Err? ==> r.error == GenerationInUse && exists k: nat :: StoppedAt(old(generations), ids, k)
      ensures forall b :: b in banks <==>
                b in old(banks) && forall g :: g in old(generations) && g !in generations ==> old(generations)[g].bank != b
      ensures forall b :: b in banks ==> banks[b] == old(banks)[b]
    {
      trace := [];
      if !explicit {
        return Err(NotExplicit), trace;
      }
      ghost var start := S();
      var cleaned, ok, i := CleanListed(ids);
      trace := CleanedRun(start, pid, cleaned);
      CleanedBanks(start, pid, cleaned);
      assert forall g :: g in old(generations) && g !in generations <==> g in cleaned;
      if !ok {
        assert StoppedAt(old(generations), ids, i);
        return Err(GenerationInUse), trace;
      }
      assert ids[..|ids|] == ids;
      return Ok(cleaned), trace;
    }

    /** Everything listed before position `k` is gone and nothing else; the generation there is
        pointed to, or neither failed nor superseded. */
    ghost predicate StoppedAt(before: map<GenerationId, Generation>, ids: seq<GenerationId>, k: nat)
      reads this
    {
      && k < |ids| && ids[k] in before
      && (activeGeneration == Some(ids[k]) || before[ids[k]].status !in {Failed, Superseded})
      && forall g :: g in before ==> (g in generations <==> g !in ids[..k])
    }

    /** Deletes the listed generations in order, up to the first one that is in use. */
    method CleanListed(ids: seq<GenerationId>) returns (cleaned: seq<GenerationId>, ok: bool, i: nat)
      requires Idle()
      modifies this`generations, this`banks
      ensures S() == Cleaned(old(S()), cleaned) && MayClean(old(S()), pid, cleaned)
      ensures i <= |ids| && (ok <==> i == |ids|) && (!ok ==> ids[i] in generations && !Deletable(ids[i]))
      ensures forall g :: g in cleaned <==> g in ids[..i] && g in old(generations)
      ensures forall g :: g in generations <==> g in old(generations) && g !in ids[..i]
      ensures forall g :: g in generations ==> generations[g] == old(generations)[g]
    {
      ghost var start := S();
      cleaned, i := [], 0;
      while i < |ids|
        invariant i <= |ids| && S() == Cleaned(start, cleaned) && MayClean(start, pid, cleaned)
        invariant forall g :: g in cleaned <==> g in ids[..i] && g in old(generations)
        invariant forall g :: g in generations <==> g in old(generations) && g !in ids[..i]
        invariant forall g :: g in generations ==> generations[g] == old(generations)[g]
      {
        assert ids[..i + 1] == ids[..i] + [ids[i]];
        if ids[i] in generations {
          if !Deletable(ids[i]) {
            return cleaned, false, i;
          }
          DeleteNext(start, cleaned, ids[i]);
          cleaned := cleaned + [ids[i]];
        }
        i := i + 1;
      }
      ok := true;
    }

    /** Deletes one more generation after `cleaned`. */
    method DeleteNext(ghost start: State, ghost cleaned: seq<GenerationId>, gen: GenerationId)
      requires gen in generations && Deletable(gen)
      requires S() == Cleaned(start, cleaned) && MayClean(start, pid, cleaned)
      modifies this`generations, this`banks
      ensures S() == Cleaned(start, cleaned + [gen]) && MayClean(start, pid, cleaned + [gen])
      ensures generations == Without(old(generations), gen)
    {
      CleanedFrame(start, pid, cleaned);
      CleanedOne(start, pid, cleaned, gen);
      DeleteGeneration(gen);
    }

    /** One cleanup transaction: lock, delete the bank, delete the row. */
    method DeleteGeneration(gen: GenerationId)
      requires gen in generations && Deletable(gen)
      modifies this`generations, this`banks
      ensures S() == WithoutGeneration(old(S()), gen)
      ensures generations == Without(old(generations), gen)
    {
      banks := Without(banks, generations[gen].bank);
      generations := Without(generations, gen);
    }
  }

  /** The worker's view of the memory: whatever bank the registry points to. */
  class ActiveGenerationMemoryService {
    const store: MemoryGenerationManager
    const worker: ProcessId

    constructor (store: MemoryGenerationManager, worker: ProcessId)
      ensures this.store == store && this.worker == worker
    {
      this.store, this.worker := store, worker;
    }

    /** Retains into the pointed bank while holding the registry row, so that no switch
        can happen between reading the pointer and the backend's confirmation. */
    method Retain(message: Message, backend: Backend) returns (ok: bool, ghost trace: seq<Step>)
      requires worker !in store.procs && store.rowLock.None?
      requires message in store.archive && message.text.Content?
      modifies store`banks, store`procs
      ensures Run(old(store.S()), trace) == Some(store.S()) && store.rowLock.None?
      ensures ok <==> && store.activeGeneration.Some? && store.activeGeneration.value in store.generations
                      && store.generations[store.activeGeneration.value].status == Active
                      && message.id !in backend.fails
      ensures ok ==> && store.procs == old(store.procs)[worker := Retained(message)]
                     && message.id in Bank(store.banks, store.S().reg.ActiveBank())
                     && forall b, m :: m in Bank(store.banks, b) <==>
                          m in Bank(old(store.banks), b) || (b == store.S().reg.ActiveBank() && m == message.id)
      ensures !ok ==> store.procs == old(store.procs) && store.banks == old(store.banks)
    {
      if store.activeGeneration.None? || store.activeGeneration.value !in store.generations
         || store.generations[store.activeGeneration.value].status != Active {
        return false, [];
      }
      var bank := store.generations[store.activeGeneration.value].bank;
      ok := message.id !in backend.fails;
      trace := RetainSteps(store.S(), worker, message, ok);
      if ok {
        store.banks := Store(store.banks, bank, message.id);
        store.procs := store.procs[worker := Retained(message)];
      }
    }
  }
}
