/**
 Whole runs of the checkpoint protocol: receipt writes, consumption, saves, replacements, crashes
 at any durable state inside a save, and reloads.
 */
module CheckpointRuns {
  import opened Common
  import opened Delivery
  import opened Checkpoint

  /** The two documents one save writes. */
  datatype Snapshot = Snapshot(messageMap: map<string, string>, doc: StateDoc)

  /** `minted`, `saves` and the epochs only record history: the generations given out, the document
      pair of every save so far, and which of them each file on disk comes from (0 for none). */
  datatype System = System(
    memory: Option<Memory>,
    disk: Disk,
    minted: set<nat>,
    saves: seq<Snapshot>,
    mapEpoch: nat,
    stateEpoch: nat
  )

  /** The calls that write the checkpoint. */
  datatype Call =
    | SaveState
    | BeginReplacement(ref: DeliveryRef, uuid: nat)
    | BindNamespace(binding: Binding)

  /** `crash` is None when the call returns, or how many durable states it reached. */
  datatype Step =
    | WriteReceipt(receipt: Receipt)
    | RecordOwner(id: ReceiptId)
    | RecordMessage(source: string, message: string)
    | Mark(id: ReceiptId, message: string)
    | Consume(id: ReceiptId, digest: Digest, message: string)
    | Checkpointing(call: Call, rs: seq<Retirement>, faults: Faults, crash: Option<nat>)
    | Crash
    | Reload

  function Initial(): System {
    System(Some(EmptyMemory()), EmptyDisk(), {}, [], 0, 0)
  }

  /** The memory that the save inside a call serialises. */
  function SavedMemory(m: Memory, call: Call): Memory {
    match call
    case SaveState => m
    case BeginReplacement(ref, uuid) =>
      if BaseId(ref) in m.pending then m else m.(pending := m.pending[BaseId(ref) := Minted(uuid)])
    case BindNamespace(binding) =>
      if m.binding.Some? || !BindingValid(m) then m else m.(binding := Some(binding))
  }

  /** False when the call returns without saving. */
  predicate Saves(m: Memory, call: Call) {
    match call
    case SaveState => true
    case BeginReplacement(ref, uuid) => BaseId(ref) !in m.pending
    case BindNamespace(binding) => m.binding.None? && BindingValid(m)
  }

  /** The memory after a call that returned, and the durable states it passed through. */
  function EffectOf(m: Memory, d: Disk, call: Call, rs: seq<Retirement>, faults: Faults): (Memory, seq<Disk>)
    requires rs != [] ==> m.binding.Some?
  {
    match call
    case SaveState => var e := Save(m, d, rs, faults); (e.memory, e.disks)
    case BeginReplacement(ref, uuid) => var e := Begin(m, d, ref, uuid, rs, faults); (e.memory, e.disks)
    case BindNamespace(binding) => var e := Bind(m, d, binding, rs, faults); (e.memory, e.disks)
  }

  ghost predicate CallEnabled(s: System, call: Call, rs: seq<Retirement>, faults: Faults, crash: Option<nat>) {
    && s.memory.Some?
    && var m := s.memory.value;
       && (rs != [] ==> m.binding.Some?)
       && (if Saves(m, call) then Lists(rs, SavedMemory(m, call), s.disk, faults) else rs == [])
       && (call.BeginReplacement? ==> call.uuid !in s.minted)
       && (crash.Some? ==> crash.value <= |EffectOf(m, s.disk, call, rs, faults).1|)
  }

  /** A receipt is validated before it is written, and names a generation given out earlier. */
  predicate Writable(s: System, r: Receipt) {
    && s.memory.Some?
    && s.memory.value.binding == Some(Binding(r.namespace, r.service))
    && WellFormed(r)
    && (r.ref.generation.Minted? ==> r.ref.generation.hex in s.minted)
  }

  ghost predicate Enabled(s: System, step: Step) {
    match step
    case WriteReceipt(r) => Writable(s, r)
    case RecordOwner(id) => s.memory.Some?
    case RecordMessage(source, message) => s.memory.Some?
    case Mark(id, message) => s.memory.Some?
    // callers record their own progress first
    case Consume(id, digest, message) => s.memory.Some? && id in s.memory.value.owners && IsStoatId(message)
    case Checkpointing(call, rs, faults, crash) => CallEnabled(s, call, rs, faults, crash)
    case Crash => s.memory.Some?
    case Reload => s.memory.None?
  }

  /** How many durable states the call reached. */
  ghost function Reached(s: System, call: Call, rs: seq<Retirement>, faults: Faults, crash: Option<nat>): (n: nat)
    requires CallEnabled(s, call, rs, faults, crash)
    ensures n <= |EffectOf(s.memory.value, s.disk, call, rs, faults).1|
  {
    if crash.Some? then crash.value else |EffectOf(s.memory.value, s.disk, call, rs, faults).1|
  }

  ghost function ApplyCall(s: System, call: Call, rs: seq<Retirement>, faults: Faults, crash: Option<nat>): System
    requires CallEnabled(s, call, rs, faults, crash)
  {
    var m := s.memory.value;
    var (after, disks) := EffectOf(m, s.disk, call, rs, faults);
    var saved := SavedMemory(m, call);
    var n := Reached(s, call, rs, faults, crash);
    System(
      if crash.Some? then None else Some(after),
      ([s.disk] + disks)[n],
      if call.BeginReplacement? then s.minted + {call.uuid} else s.minted,
      if disks == [] then s.saves else s.saves + [Snapshot(saved.messageMap, DocOf(saved, rs))],
      if n >= 1 then |s.saves| + 1 else s.mapEpoch,
      if n >= 2 then |s.saves| + 1 else s.stateEpoch
    )
  }

  function WithMemory(s: System, m: Memory): System {
    s.(memory := Some(m))
  }

  ghost function Apply(s: System, step: Step): System
    requires Enabled(s, step)
  {
    match step
    case WriteReceipt(r) =>
      s.(disk := s.disk.(receipts := s.disk.receipts[ReceiptPath(r.namespace, ReceiptId(r.ref)) := Document(r)]))
    case RecordOwner(id) =>
      WithMemory(s, s.memory.value.(owners := s.memory.value.owners + {id}))
    case RecordMessage(source, message) =>
      WithMemory(s, s.memory.value.(messageMap := s.memory.value.messageMap[source := message]))
    case Mark(id, message) =>
      WithMemory(s, s.memory.value.(bookkeeping := s.memory.value.bookkeeping[id := message]))
    case Consume(id, digest, message) =>
      WithMemory(s, s.memory.value.(bookkeeping := s.memory.value.bookkeeping[id := message],
                                    ready := s.memory.value.ready[id := digest]))
    case Checkpointing(call, rs, faults, crash) => ApplyCall(s, call, rs, faults, crash)
    case Crash => s.(memory := None)
    // without a state.json the caller starts a new migration
    case Reload => s.(memory := if s.disk.stateFile.None? then Some(EmptyMemory()) else Load(s.disk))
  }

  /** The durable states after the first that one step passes through. */
  ghost function Passed(s: System, step: Step): seq<Disk>
    requires Enabled(s, step)
  {
    match step
    case Checkpointing(call, rs, faults, crash) =>
      EffectOf(s.memory.value, s.disk, call, rs, faults).1[..Reached(s, call, rs, faults, crash)]
    case _ => [Apply(s, step).disk]
  }

  ghost predicate Runs(s: System, steps: seq<Step>)
    decreases |steps|
  {
    steps == [] || (Enabled(s, steps[0]) && Runs(Apply(s, steps[0]), steps[1..]))
  }

  ghost function After(s: System, steps: seq<Step>): System
    requires Runs(s, steps)
    decreases |steps|
  {
    if steps == [] then s else After(Apply(s, steps[0]), steps[1..])
  }

  /** Every durable state of a run, crash points inside a save included. */
  ghost function History(s: System, steps: seq<Step>): (h: seq<Disk>)
    requires Runs(s, steps)
    ensures h != [] && h[0] == s.disk
    decreases |steps|
  {
    if steps == [] then [s.disk]
    else [s.disk] + Passed(s, steps[0]) + History(Apply(s, steps[0]), steps[1..])
  }

  // ----- invariant

  function DurablePending(d: Disk): map<ReceiptId, Generation> {
    if d.stateFile.None? then map[] else d.stateFile.value.pending
  }

  function DurableBinding(d: Disk): Option<Binding> {
    if d.stateFile.None? then None else d.stateFile.value.binding
  }

  /** Whose progress the durable state file holds. */
  function DurableOwners(d: Disk): set<ReceiptId> {
    if d.stateFile.None? then {} else d.stateFile.value.owners
  }

  ghost predicate Known(s: System, g: Generation) {
    g.Minted? ==> g.hex in s.minted
  }

  /** What is loaded or was last saved is what is durable. */
  ghost predicate MemoryAgrees(memory: Option<Memory>, d: Disk) {
    memory.Some? ==>
      && memory.value.pending == DurablePending(d)
      && memory.value.binding == DurableBinding(d)
      && memory.value.ready.Keys <= memory.value.owners
      && DurableOwners(d) <= memory.value.owners
  }

  /** Every durable generation was given out. */
  ghost predicate GenerationsKnown(s: System) {
    && (forall k :: k in DurablePending(s.disk) ==> Known(s, DurablePending(s.disk)[k]))
    && (forall path :: path in s.disk.receipts && s.disk.receipts[path].Document? ==>
          Known(s, s.disk.receipts[path].receipt.ref.generation))
  }

  /** Each document on disk is from a save, the map never from an older one than the state. */
  ghost predicate EpochsAgree(s: System) {
    && s.stateEpoch <= s.mapEpoch <= |s.saves|
    && s.disk.mapFile == (if s.mapEpoch == 0 then None else Some(s.saves[s.mapEpoch - 1].messageMap))
    && s.disk.stateFile == (if s.stateEpoch == 0 then None else Some(s.saves[s.stateEpoch - 1].doc))
  }

  ghost predicate Invariant(s: System) {
    MemoryAgrees(s.memory, s.disk) && GenerationsKnown(s) && EpochsAgree(s)
  }

  lemma InitialInvariant()
    ensures Invariant(Initial())
  {
  }

  /** Facts about the disks of one save that survive a crash after any number of them. */
  lemma SavePrefix(m: Memory, d: Disk, rs: seq<Retirement>, faults: Faults, n: nat)
    requires rs != [] ==> m.binding.Some?
    requires n <= |Save(m, d, rs, faults).disks|
    ensures var e := ([d] + Save(m, d, rs, faults).disks)[n];
            && e.mapFile == (if n >= 1 then Some(m.messageMap) else d.mapFile)
            && e.stateFile == (if n >= 2 then Some(DocOf(m, rs)) else d.stateFile)
            && (forall path :: path in e.receipts ==> path in d.receipts && e.receipts[path] == d.receipts[path])
  {
    var s := Save(m, d, rs, faults);
    if n >= 2 {
      var written := d.(mapFile := Some(m.messageMap), stateFile := Some(DocOf(m, rs)));
      RetirePrefix(Point(m, written), rs, faults, n - 2);
      assert ([d] + s.disks)[n] == ([written] + RetireDisks(Point(m, written), rs, faults))[n - 2];
    }
  }

  lemma {:induction false} RetirePrefix(p: Point, rs: seq<Retirement>, faults: Faults, n: nat)
    requires rs != [] ==> p.memory.binding.Some?
    requires n <= |rs|
    ensures var e := ([p.disk] + RetireDisks(p, rs, faults))[n];
            && e.mapFile == p.disk.mapFile && e.stateFile == p.disk.stateFile
            && (forall path :: path in e.receipts ==> path in p.disk.receipts && e.receipts[path] == p.disk.receipts[path])
    decreases |rs|
  {
    if n > 0 {
      var q := RetireOne(p, rs[0], faults);
      RetirePrefix(q, rs[1..], faults, n - 1);
      assert ([p.disk] + RetireDisks(p, rs, faults))[n] == ([q.disk] + RetireDisks(q, rs[1..], faults))[n - 1];
    }
  }

  /** Every call is a save of `SavedMemory`, possibly undone in memory when the save fails. */
  lemma CallIsSave(m: Memory, d: Disk, call: Call, rs: seq<Retirement>, faults: Faults)
    requires rs != [] ==> m.binding.Some?
    requires if Saves(m, call) then Lists(rs, SavedMemory(m, call), d, faults) else rs == []
    ensures var (after, disks) := EffectOf(m, d, call, rs, faults);
            if !Saves(m, call) then disks == [] && after == m
            else
              var s := Save(SavedMemory(m, call), d, rs, faults);
              && disks == s.disks
              && after == (if s.ok then s.memory else m)
              && |disks| == (if s.ok then 2 + |rs| else |disks|)
              && (s.ok || |disks| <= 1)
  {
    if Saves(m, call) {
      var sm := SavedMemory(m, call);
      if call.BeginReplacement? {
        assert sm.pending - {BaseId(call.ref)} == m.pending;
      }
    }
  }

  /** Where a saving call leaves the disk, in terms of the save inside it. */
  lemma CallLandsOn(s: System, call: Call, rs: seq<Retirement>, faults: Faults, crash: Option<nat>)
    requires CallEnabled(s, call, rs, faults, crash)
    ensures var m, t, n := s.memory.value, ApplyCall(s, call, rs, faults, crash), Reached(s, call, rs, faults, crash);
            if !Saves(m, call)
            then t.disk == s.disk && n == 0 && t.saves == s.saves && (crash.None? ==> t.memory == Some(m))
            else
              var e := Save(SavedMemory(m, call), s.disk, rs, faults);
              && n <= |e.disks| && t.disk == ([s.disk] + e.disks)[n]
              && t.saves == (if e.disks == [] then s.saves else s.saves + [Snapshot(SavedMemory(m, call).messageMap, DocOf(SavedMemory(m, call), rs))])
              && (crash.None? ==> n == |e.disks| && t.memory == Some(if e.ok then e.memory else m))
              && (crash.None? && !e.ok ==> n <= 1)
    ensures crash.Some? ==> ApplyCall(s, call, rs, faults, crash).memory == None
  {
    CallIsSave(s.memory.value, s.disk, call, rs, faults);
  }

  lemma CallKeepsMemory(s: System, call: Call, rs: seq<Retirement>, faults: Faults, crash: Option<nat>)
    requires MemoryAgrees(s.memory, s.disk) && CallEnabled(s, call, rs, faults, crash)
    ensures var t := ApplyCall(s, call, rs, faults, crash); MemoryAgrees(t.memory, t.disk)
  {
    var m, n := s.memory.value, Reached(s, call, rs, faults, crash);
    CallLandsOn(s, call, rs, faults, crash);
    if Saves(m, call) && crash.None? {
      var sm := SavedMemory(m, call);
      SavePrefix(sm, s.disk, rs, faults, n);
      if Save(sm, s.disk, rs, faults).ok {
        SaveAgreesWithDisk(sm, s.disk, rs, faults);
      }
    }
  }

  lemma SavedPendingKnown(s: System, call: Call, k: ReceiptId)
    requires s.memory.Some? && MemoryAgrees(s.memory, s.disk) && GenerationsKnown(s)
    requires k in SavedMemory(s.memory.value, call).pending
    ensures var g := SavedMemory(s.memory.value, call).pending[k];
            g.Minted? ==> g.hex in s.minted || (call.BeginReplacement? && g.hex == call.uuid)
  {
    if k in s.memory.value.pending {
      assert Known(s, s.memory.value.pending[k]);
    }
  }

  lemma CallKeepsKnown(s: System, call: Call, rs: seq<Retirement>, faults: Faults, crash: Option<nat>)
    requires MemoryAgrees(s.memory, s.disk) && GenerationsKnown(s) && CallEnabled(s, call, rs, faults, crash)
    ensures GenerationsKnown(ApplyCall(s, call, rs, faults, crash))
  {
    var m, n := s.memory.value, Reached(s, call, rs, faults, crash);
    var t := ApplyCall(s, call, rs, faults, crash);
    CallLandsOn(s, call, rs, faults, crash);
    if Saves(m, call) {
      var sm := SavedMemory(m, call);
      SavePrefix(sm, s.disk, rs, faults, n);
      ClearAllKeys(sm.pending, rs);
      forall k | k in DurablePending(t.disk) ensures Known(t, DurablePending(t.disk)[k]) {
        if n >= 2 {
          SavedPendingKnown(s, call, k);
        } else {
          assert Known(s, DurablePending(s.disk)[k]);
        }
      }
    }
  }

  lemma CallKeepsEpochs(s: System, call: Call, rs: seq<Retirement>, faults: Faults, crash: Option<nat>)
    requires EpochsAgree(s) && CallEnabled(s, call, rs, faults, crash)
    ensures EpochsAgree(ApplyCall(s, call, rs, faults, crash))
  {
    var m, n := s.memory.value, Reached(s, call, rs, faults, crash);
    CallLandsOn(s, call, rs, faults, crash);
    if Saves(m, call) {
      SavePrefix(SavedMemory(m, call), s.disk, rs, faults, n);
    }
  }

  lemma CallKeepsInvariant(s: System, call: Call, rs: seq<Retirement>, faults: Faults, crash: Option<nat>)
    requires Invariant(s) && CallEnabled(s, call, rs, faults, crash)
    ensures Invariant(ApplyCall(s, call, rs, faults, crash))
  {
    CallKeepsMemory(s, call, rs, faults, crash);
    CallKeepsKnown(s, call, rs, faults, crash);
    CallKeepsEpochs(s, call, rs, faults, crash);
  }

  /** Every step, completed or cut short by a crash, keeps memory and disk in agreement. */
  lemma StepKeepsInvariant(s: System, step: Step)
    requires Invariant(s) && Enabled(s, step)
    ensures Invariant(Apply(s, step))
  {
    if step.Checkpointing? {
      CallKeepsInvariant(s, step.call, step.rs, step.faults, step.crash);
    }
  }

  lemma {:induction false} RunKeepsInvariant(s: System, steps: seq<Step>)
    requires Invariant(s) && Runs(s, steps)
    ensures Invariant(After(s, steps))
    decreases |steps|
  {
    if steps != [] {
      StepKeepsInvariant(s, steps[0]);
      RunKeepsInvariant(Apply(s, steps[0]), steps[1..]);
    }
  }

  // ----- no acknowledged delivery is lost

  ghost predicate Writes(step: Step, path: ReceiptPath) {
    step.WriteReceipt? && ReceiptPath(step.receipt.namespace, ReceiptId(step.receipt.ref)) == path
  }

  /** Neighbouring durable states: no owner's progress disappears, and the receipt at `path` stays, with
      its contents unless the run rewrites it, or was committed. */
  ghost predicate Link(d: Disk, e: Disk, path: ReceiptPath, rewritten: bool) {
    && DurableOwners(d) <= DurableOwners(e)
    && (path in d.receipts ==>
          if path in e.receipts then rewritten || e.receipts[path] == d.receipts[path] else Committed(d, path))
  }

  ghost predicate Chained(h: seq<Disk>, path: ReceiptPath, rewritten: bool)
    decreases |h|
  {
    |h| <= 1 || (Link(h[0], h[1], path, rewritten) && Chained(h[1..], path, rewritten))
  }

  lemma {:induction false} ChainedAppend(h: seq<Disk>, g: seq<Disk>, path: ReceiptPath, rewritten: bool)
    requires Chained(h, path, rewritten) && Chained(g, path, rewritten)
    requires h != [] && g != [] && h[|h| - 1] == g[0]
    ensures Chained(h + g, path, rewritten)
    decreases |h|
  {
    assert (h + g)[1..] == h[1..] + g;
    if |h| > 1 {
      ChainedAppend(h[1..], g, path, rewritten);
    } else {
      assert h[1..] + g == g;
    }
  }

  /** The owners in `[d] + ds` never become fewer. */
  ghost predicate OwnersAscend(d: Disk, ds: seq<Disk>)
    decreases |ds|
  {
    ds == [] || (DurableOwners(d) <= DurableOwners(ds[0]) && OwnersAscend(ds[0], ds[1..]))
  }

  lemma {:induction false} RetireKeepsOwners(p: Point, rs: seq<Retirement>, faults: Faults)
    requires rs != [] ==> p.memory.binding.Some?
    ensures OwnersAscend(p.disk, RetireDisks(p, rs, faults))
    decreases |rs|
  {
    if rs != [] {
      var q := RetireOne(p, rs[0], faults);
      RetireKeepsOwners(q, rs[1..], faults);
      assert RetireDisks(p, rs, faults)[1..] == RetireDisks(q, rs[1..], faults);
    }
  }

  lemma OwnersCons(d: Disk, e: Disk, tail: seq<Disk>)
    requires DurableOwners(d) <= DurableOwners(e) && OwnersAscend(e, tail)
    ensures OwnersAscend(d, [e] + tail)
  {
    assert ([e] + tail)[1..] == tail;
  }

  lemma SaveOwnersAscend(m: Memory, d: Disk, rs: seq<Retirement>, faults: Faults)
    requires rs != [] ==> m.binding.Some?
    requires DurableOwners(d) <= m.owners
    ensures OwnersAscend(d, Save(m, d, rs, faults).disks)
  {
    var s := Save(m, d, rs, faults);
    var mapped := d.(mapFile := Some(m.messageMap));
    if s.ok {
      var written := mapped.(stateFile := Some(DocOf(m, rs)));
      var tail := RetireDisks(Point(m, written), rs, faults);
      RetireKeepsOwners(Point(m, written), rs, faults);
      assert s.disks == [mapped, written] + tail;
      OwnersCons(mapped, written, tail);
      OwnersCons(d, mapped, [written] + tail);
    }
  }

  lemma {:induction false} SafeChained(m: Memory, d: Disk, ds: seq<Disk>, n: nat, path: ReceiptPath)
    requires Safe(m, d, ds) && OwnersAscend(d, ds) && n <= |ds|
    ensures Chained([d] + ds[..n], path, false)
    decreases |ds|
  {
    if n > 0 {
      SafeChained(m, ds[0], ds[1..], n - 1, path);
      assert ([d] + ds[..n])[1..] == [ds[0]] + ds[1..][..n - 1];
    }
  }

  lemma {:induction false} RewritableChained(h: seq<Disk>, path: ReceiptPath, rewritten: bool)
    requires Chained(h, path, false)
    ensures Chained(h, path, rewritten)
    decreases |h|
  {
    if |h| > 1 {
      RewritableChained(h[1..], path, rewritten);
    }
  }

  lemma SavingChained(s: System, step: Step, path: ReceiptPath)
    requires Invariant(s) && Enabled(s, step) && step.Checkpointing?
    ensures Chained([s.disk] + Passed(s, step), path, false)
  {
    var m := s.memory.value;
    CallIsSave(m, s.disk, step.call, step.rs, step.faults);
    if Saves(m, step.call) {
      var sm := SavedMemory(m, step.call);
      SaveRemovesOnlyCommitted(sm, s.disk, step.rs, step.faults);
      SaveOwnersAscend(sm, s.disk, step.rs, step.faults);
      SafeChained(sm, s.disk, Save(sm, s.disk, step.rs, step.faults).disks,
                  Reached(s, step.call, step.rs, step.faults, step.crash), path);
    }
  }

  lemma StepChained(s: System, step: Step, path: ReceiptPath, rewritten: bool)
    requires Invariant(s) && Enabled(s, step) && (Writes(step, path) ==> rewritten)
    ensures var h := [s.disk] + Passed(s, step);
            Chained(h, path, rewritten) && h[|h| - 1] == Apply(s, step).disk
  {
    if step.Checkpointing? {
      SavingChained(s, step, path);
      RewritableChained([s.disk] + Passed(s, step), path, rewritten);
    }
  }

  lemma {:induction false} HistoryChained(s: System, steps: seq<Step>, path: ReceiptPath, rewritten: bool)
    requires Invariant(s) && Runs(s, steps)
    requires forall step :: step in steps && Writes(step, path) ==> rewritten
    ensures Chained(History(s, steps), path, rewritten)
    decreases |steps|
  {
    if steps != [] {
      StepChained(s, steps[0], path, rewritten);
      StepKeepsInvariant(s, steps[0]);
      var t := Apply(s, steps[0]);
      HistoryChained(t, steps[1..], path, rewritten);
      ChainedAppend([s.disk] + Passed(s, steps[0]), History(t, steps[1..]), path, rewritten);
    }
  }

  lemma {:induction false} OwnersOnlyGrow(h: seq<Disk>, i: nat, j: nat, path: ReceiptPath, rewritten: bool)
    requires Chained(h, path, rewritten) && i <= j < |h|
    ensures DurableOwners(h[i]) <= DurableOwners(h[j])
    decreases j
  {
    if i > 0 {
      OwnersOnlyGrow(h[1..], i - 1, j - 1, path, rewritten);
    } else if j > 0 {
      OwnersOnlyGrow(h[1..], 0, j - 1, path, rewritten);
    }
  }

  /** The receipt at `path` is as it was at `i`, or some state from `i` on had it committed, with these
      contents, and its owner's progress is durable at `j`. */
  ghost predicate Evidenced(h: seq<Disk>, i: nat, j: nat, path: ReceiptPath, rewritten: bool)
    requires i <= j < |h| && path in h[i].receipts
  {
    || (path in h[j].receipts && (rewritten || h[j].receipts[path] == h[i].receipts[path]))
    || (&& path.id in DurableOwners(h[j])
        && exists k :: i <= k < j && Committed(h[k], path) && (rewritten || h[k].receipts[path] == h[i].receipts[path]))
  }

  lemma {:induction false} LostMeansCommitted(h: seq<Disk>, i: nat, j: nat, path: ReceiptPath, rewritten: bool)
    requires Chained(h, path, rewritten) && i <= j < |h| && path in h[i].receipts
    ensures Evidenced(h, i, j, path, rewritten)
    decreases j
  {
    var rest := h[1..];
    if i > 0 {
      LostMeansCommitted(rest, i - 1, j - 1, path, rewritten);
      if k :| i - 1 <= k < j - 1 && Committed(rest[k], path)
              && (rewritten || rest[k].receipts[path] == rest[i - 1].receipts[path]) {
        assert rest[k] == h[k + 1];
      }
    } else if j > 0 && path in h[1].receipts {
      LostMeansCommitted(rest, 0, j - 1, path, rewritten);
      if k :| 0 <= k < j - 1 && Committed(rest[k], path)
              && (rewritten || rest[k].receipts[path] == rest[0].receipts[path]) {
        assert rest[k] == h[k + 1];
      }
    } else if j > 0 {
      assert Committed(h[0], path);
      OwnersOnlyGrow(h, 0, j, path, rewritten);
    }
  }

  /** Main safety result: after any run, over any further steps that do not write this receipt, at every
      durable state, crash points inside a save included: the receipt is still there with the same
      contents, or a state in between held exactly these contents, fully acknowledged, beside a
      `state.json` with its marker, and its owner's progress is in the present `state.json`. */
  lemma NoAcknowledgedDeliveryLost(before: seq<Step>, steps: seq<Step>, i: nat, j: nat, path: ReceiptPath)
    requires Runs(Initial(), before) && Runs(After(Initial(), before), steps)
    requires forall step :: step in steps ==> !Writes(step, path)
    requires i <= j < |History(After(Initial(), before), steps)|
    requires path in History(After(Initial(), before), steps)[i].receipts
    ensures Evidenced(History(After(Initial(), before), steps), i, j, path, false)
  {
    InitialInvariant();
    RunKeepsInvariant(Initial(), before);
    var s := After(Initial(), before);
    HistoryChained(s, steps, path, false);
    LostMeansCommitted(History(s, steps), i, j, path, false);
  }

  /** Also where the receipt is rewritten meanwhile: no receipt file vanishes without having been
      committed, and no progress of its owner afterwards. */
  lemma NoReceiptVanishes(steps: seq<Step>, i: nat, j: nat, path: ReceiptPath)
    requires Runs(Initial(), steps)
    requires i <= j < |History(Initial(), steps)|
    requires path in History(Initial(), steps)[i].receipts
    ensures Evidenced(History(Initial(), steps), i, j, path, true)
  {
    InitialInvariant();
    HistoryChained(Initial(), steps, path, true);
    LostMeansCommitted(History(Initial(), steps), i, j, path, true);
  }

  // ----- replacement generations

  /** The step made durable a checkpoint that retires a receipt of this generation. */
  ghost predicate CommitsRetirement(s: System, step: Step, base: ReceiptId, g: Generation)
    requires Enabled(s, step)
  {
    && step.Checkpointing?
    && Saves(s.memory.value, step.call)
    && Reached(s, step.call, step.rs, step.faults, step.crash) >= 2
    && exists i :: 0 <= i < |step.rs| && BaseId(step.rs[i].receipt.ref) == base
                   && step.rs[i].receipt.ref.generation == g
  }

  /** A retirement is earned: the receipt was on disk, complete, consumed by digest and marked. */
  lemma RetirementIsEarned(s: System, step: Step, base: ReceiptId, g: Generation)
    requires Invariant(s) && Enabled(s, step) && CommitsRetirement(s, step, base, g)
    ensures exists path ::
              && path in s.disk.receipts && s.disk.receipts[path].Document?
              && var r := s.disk.receipts[path].receipt;
                 && BaseId(r.ref) == base && r.ref.generation == g && WellFormed(r) && FullyAcknowledged(r)
                 && var m := s.memory.value;
                    && path.id in m.ready && m.ready[path.id] == Sha256(s.disk.receipts[path])
                    && path.id in m.bookkeeping && m.bookkeeping[path.id] == r.parts[0].messageId
  {
    var m := SavedMemory(s.memory.value, step.call);
    CallIsSave(s.memory.value, s.disk, step.call, step.rs, step.faults);
    var i :| 0 <= i < |step.rs| && BaseId(step.rs[i].receipt.ref) == base && step.rs[i].receipt.ref.generation == g;
    var path := PathOf(m, step.rs[i].id);
    assert Inspect(m, s.disk, step.faults, step.rs[i].id) == Retire(step.rs[i].receipt);
    assert s.disk.receipts[path] == Document(step.rs[i].receipt);
  }

  /** One step removes a durable pending generation exactly when it commits its retirement, and
      never changes it. */
  lemma PendingChangesOnlyByRetirement(s: System, step: Step, base: ReceiptId)
    requires Invariant(s) && Enabled(s, step)
    requires base in DurablePending(s.disk)
    ensures var g := DurablePending(s.disk)[base];
            var after := DurablePending(Apply(s, step).disk);
            && (base in after ==> after[base] == g)
            && (base !in after <==> CommitsRetirement(s, step, base, g))
  {
    if step.Checkpointing? {
      var m := s.memory.value;
      CallIsSave(m, s.disk, step.call, step.rs, step.faults);
      if Saves(m, step.call) {
        var sm := SavedMemory(m, step.call);
        SavePrefix(sm, s.disk, step.rs, step.faults, Reached(s, step.call, step.rs, step.faults, step.crash));
        ClearAllExact(sm.pending, step.rs, base);
      }
    }
  }

  ghost predicate RetiredDuring(s: System, steps: seq<Step>, base: ReceiptId, g: Generation)
    requires Runs(s, steps)
    decreases |steps|
  {
    steps != [] && (CommitsRetirement(s, steps[0], base, g)
                    || RetiredDuring(Apply(s, steps[0]), steps[1..], base, g))
  }

  lemma {:induction false} GenerationPersists(s: System, steps: seq<Step>, base: ReceiptId)
    requires Invariant(s) && Runs(s, steps)
    requires base in DurablePending(s.disk)
    ensures var g := DurablePending(s.disk)[base];
            var after := DurablePending(After(s, steps).disk);
            RetiredDuring(s, steps, base, g) || (base in after && after[base] == g)
    decreases |steps|
  {
    if steps != [] {
      PendingChangesOnlyByRetirement(s, steps[0], base);
      StepKeepsInvariant(s, steps[0]);
      var t := Apply(s, steps[0]);
      if base in DurablePending(t.disk) {
        GenerationPersists(t, steps[1..], base);
      }
    }
  }

  /** What a replacement call that ran to its end returned. */
  ghost function Returned(s: System, step: Step): Option<DeliveryRef>
    requires Enabled(s, step) && step.Checkpointing? && step.call.BeginReplacement?
  {
    Begin(s.memory.value, s.disk, step.call.ref, step.call.uuid, step.rs, step.faults).ref
  }

  ghost predicate Returns(s: System, step: Step, ref: DeliveryRef) {
    && Enabled(s, step) && step.Checkpointing? && step.call.BeginReplacement? && step.crash.None?
    && Returned(s, step) == Some(ref)
  }

  /** A returned generation belongs to the requested delivery and is already in the durable
      `state.json`; it was minted here exactly when none was pending. */
  lemma ReturnedIsDurable(s: System, step: Step, ref: DeliveryRef)
    requires Invariant(s) && Returns(s, step, ref)
    ensures Logical(ref) == Logical(step.call.ref)
    ensures var after := DurablePending(Apply(s, step).disk);
            BaseId(ref) in after && after[BaseId(ref)] == ref.generation
    ensures (ref.generation == Minted(step.call.uuid)) <==> (BaseId(ref) !in DurablePending(s.disk))
  {
    var m := s.memory.value;
    var key := BaseId(step.call.ref);
    assert BaseId(ref) == key;
    CallIsSave(m, s.disk, step.call, step.rs, step.faults);
    if key in m.pending {
      assert Known(s, m.pending[key]);
    } else {
      var sm := SavedMemory(m, step.call);
      SaveAgreesWithDisk(sm, s.disk, step.rs, step.faults);
      ClearAllExact(sm.pending, step.rs, key);
      forall i | 0 <= i < |step.rs|
        ensures step.rs[i].receipt.ref.generation != Minted(step.call.uuid)
      {
        assert Inspect(sm, s.disk, step.faults, step.rs[i].id) == Retire(step.rs[i].receipt);
        assert s.disk.receipts[PathOf(sm, step.rs[i].id)] == Document(step.rs[i].receipt);
      }
    }
  }

  /** Across any steps, crashes and reloads, the next call for the same delivery returns the same
      generation, unless a checkpoint retired a receipt of that generation in between. */
  lemma SameGenerationUntilRetired(
    s: System, first: Step, given: DeliveryRef, steps: seq<Step>, second: Step, again: DeliveryRef)
    requires Invariant(s) && Returns(s, first, given)
    requires Runs(Apply(s, first), steps)
    requires Returns(After(Apply(s, first), steps), second, again)
    requires Logical(again) == Logical(given)
    ensures again == given || RetiredDuring(Apply(s, first), steps, BaseId(given), given.generation)
  {
    ReturnedIsDurable(s, first, given);
    StepKeepsInvariant(s, first);
    var t := Apply(s, first);
    GenerationPersists(t, steps, BaseId(given));
    RunKeepsInvariant(t, steps);
    assert BaseId(again) == BaseId(given);
    assert BaseId(second.call.ref) == BaseId(again);
  }

  // ----- the two documents

  ghost predicate FromSaves(d: Disk, saves: seq<Snapshot>, a: nat, b: nat) {
    && a <= b <= |saves|
    && d.stateFile == (if a == 0 then None else Some(saves[a - 1].doc))
    && d.mapFile == (if b == 0 then None else Some(saves[b - 1].messageMap))
  }

  /** Each document is wholly the one of some save (or absent), the message map never the older. */
  ghost predicate Ordered(d: Disk, saves: seq<Snapshot>) {
    exists a: nat, b: nat :: FromSaves(d, saves, a, b)
  }

  lemma OrderedGrows(d: Disk, saves: seq<Snapshot>, more: seq<Snapshot>)
    requires Ordered(d, saves) && saves <= more
    ensures Ordered(d, more)
  {
    var a: nat, b: nat :| FromSaves(d, saves, a, b);
    assert FromSaves(d, more, a, b);
  }

  lemma StepSavesGrow(s: System, step: Step)
    requires Enabled(s, step)
    ensures s.saves <= Apply(s, step).saves
  {
  }

  lemma {:induction false} SavesGrow(s: System, steps: seq<Step>)
    requires Runs(s, steps)
    ensures s.saves <= After(s, steps).saves
    decreases |steps|
  {
    if steps != [] {
      StepSavesGrow(s, steps[0]);
      SavesGrow(Apply(s, steps[0]), steps[1..]);
    }
  }

  lemma StepDocuments(s: System, step: Step, i: nat)
    requires Invariant(s) && Enabled(s, step)
    requires i <= |Passed(s, step)|
    ensures Ordered(([s.disk] + Passed(s, step))[i], Apply(s, step).saves)
  {
    var t := Apply(s, step);
    StepSavesGrow(s, step);
    assert FromSaves(s.disk, s.saves, s.stateEpoch, s.mapEpoch);
    OrderedGrows(s.disk, s.saves, t.saves);
    if i == 0 {
    } else if step.Checkpointing? {
      var m := s.memory.value;
      CallIsSave(m, s.disk, step.call, step.rs, step.faults);
      var sm := SavedMemory(m, step.call);
      var disks := Save(sm, s.disk, step.rs, step.faults).disks;
      SavePrefix(sm, s.disk, step.rs, step.faults, i);
      var d := ([s.disk] + Passed(s, step))[i];
      assert d == ([s.disk] + disks)[i];
      assert FromSaves(d, t.saves, if i >= 2 then |s.saves| + 1 else s.stateEpoch, |s.saves| + 1);
    } else {
      assert FromSaves(t.disk, t.saves, s.stateEpoch, s.mapEpoch);
    }
  }

  ghost predicate AllOrdered(h: seq<Disk>, saves: seq<Snapshot>) {
    forall d :: d in h ==> Ordered(d, saves)
  }

  lemma AllOrderedGrows(h: seq<Disk>, saves: seq<Snapshot>, more: seq<Snapshot>)
    requires AllOrdered(h, saves) && saves <= more
    ensures AllOrdered(h, more)
  {
    forall d | d in h ensures Ordered(d, more) {
      OrderedGrows(d, saves, more);
    }
  }

  lemma StepAllOrdered(s: System, step: Step)
    requires Invariant(s) && Enabled(s, step)
    ensures AllOrdered([s.disk] + Passed(s, step), Apply(s, step).saves)
  {
    var front := [s.disk] + Passed(s, step);
    forall d | d in front ensures Ordered(d, Apply(s, step).saves) {
      var i :| 0 <= i < |front| && front[i] == d;
      StepDocuments(s, step, i);
    }
  }

  lemma {:induction false} HistoryDocuments(s: System, steps: seq<Step>)
    requires Invariant(s) && Runs(s, steps)
    ensures AllOrdered(History(s, steps), After(s, steps).saves)
    decreases |steps|
  {
    if steps == [] {
      assert FromSaves(s.disk, s.saves, s.stateEpoch, s.mapEpoch);
    } else {
      var t := Apply(s, steps[0]);
      StepKeepsInvariant(s, steps[0]);
      HistoryDocuments(t, steps[1..]);
      StepAllOrdered(s, steps[0]);
      SavesGrow(t, steps[1..]);
      AllOrderedGrows([s.disk] + Passed(s, steps[0]), t.saves, After(t, steps[1..]).saves);
    }
  }

  /** At every durable state of every run, crash points included, `message_map.json` comes from the
      same save as `state.json` or from a later one, and neither is a mixture of two saves. */
  lemma MessageMapNeverOlder(steps: seq<Step>, i: nat)
    requires Runs(Initial(), steps)
    requires i < |History(Initial(), steps)|
    ensures Ordered(History(Initial(), steps)[i], After(Initial(), steps).saves)
  {
    InitialInvariant();
    HistoryDocuments(Initial(), steps);
  }
}
