/**
 The calls of `state.py` and `engine.py` that change the in-memory state and the output folder in
 place, each proved to be exactly the step of module Checkpoint it stands for.
 */
module MigrationStore {
  import opened Common
  import opened Delivery
  import opened Checkpoint
  import Runs = CheckpointRuns

  /** `rs` is what a call that writes the checkpoint may retire, empty when it does not save. */
  ghost predicate Retires(rs: seq<Retirement>, m: Memory, d: Disk, faults: Faults, call: Runs.Call) {
    if Runs.Saves(m, call) then Lists(rs, Runs.SavedMemory(m, call), d, faults) else rs == []
  }

  /** The checkpointed members of the migration state, updated in place. */
  class MigrationState {
    var binding: Option<Binding>
    var bookkeeping: map<ReceiptId, string>
    var pending: map<ReceiptId, Generation>
    var ready: map<ReceiptId, Digest>
    var messageMap: map<string, string>
    var owners: set<ReceiptId>

    function Value(): Memory
      reads this
    {
      Memory(binding, bookkeeping, pending, ready, messageMap, owners)
    }

    constructor (m: Memory)
      ensures Value() == m
    {
      binding, bookkeeping, pending := m.binding, m.bookkeeping, m.pending;
      ready, messageMap, owners := m.ready, m.messageMap, m.owners;
    }
  }

  /** Ferry's output folder. `trace` lists every durable state it has been in, newest last: a crash
      leaves the newest one. */
  class OutputFolder {
    var mapFile: Option<map<string, string>>
    var stateFile: Option<StateDoc>
    var receipts: map<ReceiptPath, Contents>
    ghost var trace: seq<Disk>

    function Value(): Disk
      reads this
    {
      Disk(mapFile, stateFile, receipts)
    }

    ghost predicate Valid()
      reads this
    {
      trace != [] && trace[|trace| - 1] == Value()
    }

    constructor (d: Disk)
      ensures Valid() && Value() == d && trace == [d]
    {
      mapFile, stateFile, receipts := d.mapFile, d.stateFile, d.receipts;
      trace := [d];
    }

    method ReplaceMapFile(messageMap: map<string, string>)
      requires Valid()
      modifies this
      ensures Valid() && Value() == old(Value()).(mapFile := Some(messageMap))
      ensures trace == old(trace) + [Value()]
    {
      mapFile := Some(messageMap);
      trace := trace + [Value()];
    }

    method ReplaceStateFile(doc: StateDoc)
      requires Valid()
      modifies this
      ensures Valid() && Value() == old(Value()).(stateFile := Some(doc))
      ensures trace == old(trace) + [Value()]
    {
      stateFile := Some(doc);
      trace := trace + [Value()];
    }

    method ReplaceReceipt(path: ReceiptPath, contents: Contents)
      requires Valid()
      modifies this
      ensures Valid() && Value() == old(Value()).(receipts := old(receipts)[path := contents])
      ensures trace == old(trace) + [Value()]
    {
      receipts := receipts[path := contents];
      trace := trace + [Value()];
    }

    method Unlink(path: ReceiptPath)
      requires Valid()
      modifies this
      ensures Valid() && Value() == old(Value()).(receipts := old(receipts) - {path})
      ensures trace == old(trace) + [Value()]
    {
      receipts := receipts - {path};
      trace := trace + [Value()];
    }
  }

  /** Refuses a receipt that is malformed or belongs to another migration, and replaces the file
      whole or not at all. */
  method WriteDeliveryReceipt(state: MigrationState, folder: OutputFolder, receipt: Receipt, writeFails: bool)
    returns (token: Option<(ReceiptId, Digest)>)
    requires folder.Valid()
    modifies folder
    ensures folder.Valid()
    ensures token.Some? <==>
              WellFormed(receipt) && state.binding == Some(Binding(receipt.namespace, receipt.service)) && !writeFails
    ensures token.Some? ==> token.value == (ReceiptId(receipt.ref), Sha256(Document(receipt)))
    ensures token.Some? ==>
              && folder.Value() == old(folder.Value()).(receipts := old(folder.receipts)[
                   ReceiptPath(receipt.namespace, ReceiptId(receipt.ref)) := Document(receipt)])
              && folder.trace == old(folder.trace) + [folder.Value()]
    ensures token.None? ==> folder.Value() == old(folder.Value()) && folder.trace == old(folder.trace)
  {
    if !WellFormed(receipt) || state.binding != Some(Binding(receipt.namespace, receipt.service)) || writeFails {
      return None;
    }
    folder.ReplaceReceipt(ReceiptPath(receipt.namespace, ReceiptId(receipt.ref)), Document(receipt));
    token := Some((ReceiptId(receipt.ref), Sha256(Document(receipt))));
  }

  /** None when there is no such file; refuses anything but this delivery's own receipt. */
  method ReadDeliveryReceipt(state: MigrationState, folder: OutputFolder, ref: DeliveryRef)
    returns (r: Result<Option<Receipt>, string>)
    requires state.binding.Some?
    ensures var path := PathOf(state.Value(), ReceiptId(ref));
            && (r == Success(None) <==> path !in folder.receipts)
            && (r.Success? && r.value.Some? <==>
                  && path in folder.receipts
                  && folder.receipts[path].Document?
                  && var c := folder.receipts[path].receipt;
                     WellFormed(c) && c.ref == ref && Some(Binding(c.namespace, c.service)) == state.binding)
            && (r.Success? && r.value.Some? ==> folder.receipts[path] == Document(r.value.value))
  {
    var path := PathOf(state.Value(), ReceiptId(ref));
    if path !in folder.receipts {
      return Success(None);
    }
    var contents := folder.receipts[path];
    if contents.Malformed? || !WellFormed(contents.receipt) {
      return Failure("Invalid delivery receipt JSON");
    }
    var c := contents.receipt;
    if Some(Binding(c.namespace, c.service)) != state.binding || c.ref != ref {
      return Failure("Delivery receipt does not match migration");
    }
    r := Success(Some(c));
  }

  method ConsumeDelivery(state: MigrationState, id: ReceiptId, digest: Digest, message: string) returns (ok: bool)
    modifies state
    ensures ok <==> IsStoatId(message)
    ensures state.Value() ==
            if ok then old(state.Value()).(bookkeeping := old(state.bookkeeping)[id := message],
                                           ready := old(state.ready)[id := digest])
            else old(state.Value())
  {
    ok := IsStoatId(message);
    if ok {
      state.bookkeeping := state.bookkeeping[id := message];
      state.ready := state.ready[id := digest];
    }
  }

  /** The consumed deliveries a save may retire, or None when one cannot be judged safely. */
  method ConsumedDeliveries(state: MigrationState, folder: OutputFolder, faults: Faults)
    returns (r: Option<seq<Retirement>>)
    requires BindingValid(state.Value())
    ensures r.None? <==> InspectionFails(state.Value(), folder.Value(), faults)
    ensures r.Some? ==> IsRetirementList(r.value, state.Value(), folder.Value(), faults)
    ensures r.None? <==> exists id :: Refused(state.Value(), folder.Value(), faults, id)
    ensures r.Some? ==> forall id ::
              (exists i :: 0 <= i < |r.value| && r.value[i].id == id) <==> Finished(state.Value(), folder.Value(), id)
  {
    var m, d := state.Value(), folder.Value();
    var result: seq<Retirement> := [];
    var todo := m.ready.Keys;
    while todo != {}
      invariant todo <= m.ready.Keys
      invariant forall i, j :: 0 <= i < j < |result| ==> result[i].id != result[j].id
      invariant forall i :: 0 <= i < |result| ==>
                  result[i].id in m.ready && result[i].id !in todo && result[i].digest == m.ready[result[i].id]
                  && Inspect(m, d, faults, result[i].id) == Retire(result[i].receipt)
      invariant forall id :: id in m.ready && id !in todo ==>
                  match Inspect(m, d, faults, id)
                  case Keep => true
                  case Refuse => false
                  case Retire(_) => exists i :: 0 <= i < |result| && result[i].id == id
      decreases |todo|
    {
      var id :| id in todo;
      todo := todo - {id};
      match Inspect(m, d, faults, id) {
        case Keep =>
        case Refuse =>
          RefusedExactly(m, d, faults, id);
          return None;
        case Retire(receipt) =>
          ghost var before := result;
          result := result + [Retirement(id, m.ready[id], receipt)];
          assert result[|result| - 1].id == id;
          assert forall i :: 0 <= i < |before| ==> result[i] == before[i];
      }
    }
    ConsumedExactly(m, d, result, faults);
    r := Some(result);
  }

  /** Removes one receipt whose checkpoint is durable; a failed removal keeps it and its marker. */
  method RetireDelivery(state: MigrationState, folder: OutputFolder, r: Retirement, faults: Faults)
    requires folder.Valid()
    requires state.binding.Some?
    modifies state, folder
    ensures folder.Valid()
    ensures Point(state.Value(), folder.Value()) == old(RetireOne(Point(state.Value(), folder.Value()), r, faults))
    ensures folder.trace == old(folder.trace) + [folder.Value()]
  {
    state.pending := ClearCompleted(state.pending, r.receipt);
    var path := PathOf(state.Value(), r.id);
    if path !in folder.receipts {
      folder.trace := folder.trace + [folder.Value()];
    } else if r.id in faults.unlink || Sha256(folder.receipts[path]) != r.digest {
      folder.trace := folder.trace + [folder.Value()];
      return;
    } else {
      folder.Unlink(path);
    }
    state.ready := state.ready - {r.id};
    state.bookkeeping := state.bookkeeping - {r.id};
  }

  method RetireConsumedDeliveries(state: MigrationState, folder: OutputFolder, rs: seq<Retirement>, faults: Faults)
    requires folder.Valid()
    requires rs != [] ==> state.binding.Some?
    modifies state, folder
    ensures folder.Valid()
    ensures var p := old(Point(state.Value(), folder.Value()));
            var end := RetireAll(p, rs, faults);
            && state.Value() == DropAbsent(end, faults)
            && folder.Value() == end.disk
            && folder.trace == old(folder.trace) + RetireDisks(p, rs, faults)
  {
    ghost var p := Point(state.Value(), folder.Value());
    ghost var q := p;
    for i := 0 to |rs|
      invariant folder.Valid() && q == Point(state.Value(), folder.Value())
      invariant rs != [] ==> q.memory.binding.Some?
      invariant RetireAll(q, rs[i..], faults) == RetireAll(p, rs, faults)
      invariant folder.trace + RetireDisks(q, rs[i..], faults) == old(folder.trace) + RetireDisks(p, rs, faults)
    {
      assert rs[i..][0] == rs[i] && rs[i..][1..] == rs[i + 1..];
      ghost var next := RetireOne(q, rs[i], faults);
      ghost var rest := RetireDisks(next, rs[i + 1..], faults);
      assert folder.trace + ([next.disk] + rest) == (folder.trace + [next.disk]) + rest;
      RetireDelivery(state, folder, rs[i], faults);
      q := next;
    }
    assert rs[|rs|..] == [];
    DropAbsentMarkers(state, folder, faults);
  }

  lemma MapMinusOneMore<K, V>(m: map<K, V>, gone: set<K>, k: K)
    ensures m - gone - {k} == m - (gone + {k})
  {
  }

  /** A crash can leave markers of receipts that are already gone. */
  method DropAbsentMarkers(state: MigrationState, folder: OutputFolder, faults: Faults)
    modifies state
    ensures state.Value() == DropAbsent(old(Point(state.Value(), folder.Value())), faults)
  {
    ghost var m := state.Value();
    ghost var d := folder.Value();
    var todo := state.bookkeeping.Keys;
    ghost var gone: set<ReceiptId> := {};
    while todo != {}
      invariant todo <= m.bookkeeping.Keys
      invariant forall id :: id in gone <==> id in m.bookkeeping && id !in todo && !MarkerStays(m, d, faults, id)
      invariant state.Value() == m.(bookkeeping := m.bookkeeping - gone, ready := m.ready - gone)
      decreases |todo|
    {
      var id :| id in todo;
      todo := todo - {id};
      if state.binding.Some? && id !in faults.stat && PathOf(state.Value(), id) !in folder.receipts {
        MapMinusOneMore(m.bookkeeping, gone, id);
        MapMinusOneMore(m.ready, gone, id);
        state.bookkeeping := state.bookkeeping - {id};
        state.ready := state.ready - {id};
        gone := gone + {id};
      }
    }
    assert gone == set id | id in m.bookkeeping && !MarkerStays(m, d, faults, id);
  }

  /** Writes message_map.json, then state.json, and only then removes consumed receipts. */
  method SaveState(state: MigrationState, folder: OutputFolder, faults: Faults)
    returns (ok: bool, ghost rs: seq<Retirement>)
    requires folder.Valid()
    modifies state, folder
    ensures folder.Valid()
    ensures old(Lists(rs, state.Value(), folder.Value(), faults))
    ensures var s := old(Save(state.Value(), folder.Value(), rs, faults));
            && ok == s.ok
            && state.Value() == s.memory
            && folder.trace == old(folder.trace) + s.disks
  {
    rs := [];
    if !BindingValid(state.Value()) {
      return false, rs;
    }
    var found := ConsumedDeliveries(state, folder, faults);
    if found.None? {
      return false, rs;
    }
    var retirements := found.value;
    rs := retirements;
    if rs != [] {
      assert rs[0].id in state.ready;
    }
    var doc := DocOf(state.Value(), retirements);
    if faults.mapWrite {
      return false, rs;
    }
    folder.ReplaceMapFile(state.messageMap);
    if faults.stateWrite {
      return false, rs;
    }
    folder.ReplaceStateFile(doc);
    RetireConsumedDeliveries(state, folder, retirements, faults);
    ok := true;
  }

  lemma ListedMeansReady(rs: seq<Retirement>, m: Memory, d: Disk, faults: Faults)
    requires Lists(rs, m, d, faults)
    ensures rs != [] ==> m.ready != map[]
  {
    if rs != [] {
      assert rs[0].id in m.ready;
    }
  }

  method EnsureDeliveryNamespace(state: MigrationState, folder: OutputFolder, uuid: nat, service: string, faults: Faults)
    returns (ok: bool, ghost rs: seq<Retirement>)
    requires folder.Valid()
    modifies state, folder
    ensures folder.Valid()
    ensures rs != [] ==> old(state.binding).Some?
    ensures old(Retires(rs, state.Value(), folder.Value(), faults, Runs.BindNamespace(Binding(uuid, service))))
    ensures var s := old(Bind(state.Value(), folder.Value(), Binding(uuid, service), rs, faults));
            && ok == s.ok
            && state.Value() == s.memory
            && folder.trace == old(folder.trace) + s.disks
  {
    rs := [];
    if !BindingValid(state.Value()) {
      return false, rs;
    }
    if state.binding.Some? {
      return state.binding.value.service == service, rs;
    }
    state.binding := Some(Binding(uuid, service));
    ghost var bound, d := state.Value(), folder.Value();
    ok, rs := SaveState(state, folder, faults);
    ListedMeansReady(rs, bound, d, faults);
    if !ok {
      state.binding := None;
    }
  }

  /** Saves or reuses the identity of an authorised replacement before anything is sent under it. */
  method BeginDeliveryReplacement(state: MigrationState, folder: OutputFolder, ref: DeliveryRef, uuid: nat, faults: Faults)
    returns (result: Option<DeliveryRef>, ghost rs: seq<Retirement>)
    requires folder.Valid()
    modifies state, folder
    ensures folder.Valid()
    ensures rs != [] ==> old(state.binding).Some?
    ensures old(Retires(rs, state.Value(), folder.Value(), faults, Runs.BeginReplacement(ref, uuid)))
    ensures var b := old(Begin(state.Value(), folder.Value(), ref, uuid, rs, faults));
            && result == b.ref
            && state.Value() == b.memory
            && folder.trace == old(folder.trace) + b.disks
  {
    rs := [];
    var key := BaseId(ref);
    if key in state.pending {
      return Some(ref.(generation := state.pending[key])), rs;
    }
    var generation := Minted(uuid);
    state.pending := state.pending[key := generation];
    var ok: bool;
    ok, rs := SaveState(state, folder, faults);
    if !ok {
      state.pending := state.pending - {key};
      return None, rs;
    }
    result := Some(ref.(generation := generation));
  }

  method LoadState(folder: OutputFolder) returns (state: MigrationState?)
    ensures state == null <==> Load(folder.Value()).None?
    ensures state != null ==> fresh(state) && Some(state.Value()) == Load(folder.Value())
  {
    var loaded := Load(folder.Value());
    if loaded.None? {
      return null;
    }
    state := new MigrationState(loaded.value);
  }
}
