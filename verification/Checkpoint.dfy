/**
 The checkpoint protocol of `state.py` as values: one save of the in-memory state as the
 sequence of durable states it passes through. A crash leaves one of those states on disk.
 */
module Checkpoint {
  import opened Common
  import opened Delivery

  datatype Binding = Binding(namespace: nat, service: string)

  /** `delivery-receipts/<namespace>/<id>.json` */
  datatype ReceiptPath = ReceiptPath(namespace: nat, id: ReceiptId)

  /** The members of `state.json` the protocol reads back. `owners` stands for the progress the
      ordinary migration records keep about deliveries. */
  datatype StateDoc = StateDoc(
    binding: Option<Binding>,
    bookkeeping: map<ReceiptId, string>,
    pending: map<ReceiptId, Generation>,
    owners: set<ReceiptId>
  )

  datatype Disk = Disk(
    mapFile: Option<map<string, string>>,
    stateFile: Option<StateDoc>,
    receipts: map<ReceiptPath, Contents>
  )

  datatype Memory = Memory(
    binding: Option<Binding>,
    bookkeeping: map<ReceiptId, string>,
    pending: map<ReceiptId, Generation>,
    ready: map<ReceiptId, Digest>,
    messageMap: map<string, string>,
    owners: set<ReceiptId>
  )

  /** Which file operations the operating system refuses during one save. */
  datatype Faults = Faults(
    inspect: set<ReceiptId>,
    unlink: set<ReceiptId>,
    stat: set<ReceiptId>,
    mapWrite: bool,
    stateWrite: bool
  )

  datatype Retirement = Retirement(id: ReceiptId, digest: Digest, receipt: Receipt)

  datatype Saved = Saved(memory: Memory, disks: seq<Disk>, ok: bool)

  function BaseId(ref: DeliveryRef): ReceiptId {
    ReceiptId(Logical(ref))
  }

  function EmptyMemory(): Memory {
    Memory(None, map[], map[], map[], map[], {})
  }

  function EmptyDisk(): Disk {
    Disk(None, None, map[])
  }

  // ----- what a save inspects

  predicate BindingValid(m: Memory) {
    m.binding.Some? || (m.bookkeeping == map[] && m.pending == map[] && m.ready == map[])
  }

  function PathOf(m: Memory, id: ReceiptId): ReceiptPath
    requires m.binding.Some?
  {
    ReceiptPath(m.binding.value.namespace, id)
  }

  datatype Inspection = Keep | Refuse | Retire(receipt: Receipt)

  /** The outcome of looking at one consumed delivery before a save. */
  function Inspect(m: Memory, d: Disk, faults: Faults, id: ReceiptId): Inspection
    requires m.binding.Some? && id in m.ready
  {
    if PathOf(m, id) !in d.receipts then Keep
    else if id in faults.inspect then Refuse
    else
      var contents := d.receipts[PathOf(m, id)];
      if Sha256(contents) != m.ready[id] then Keep
      else if contents.Malformed? || !WellFormed(contents.receipt) then Refuse
      else
        var r := contents.receipt;
        if ReceiptId(r.ref) != id || Binding(r.namespace, r.service) != m.binding.value then Refuse
        else if !FullyAcknowledged(r) then Keep
        else if id !in m.bookkeeping || m.bookkeeping[id] != r.parts[0].messageId then Keep
        else Retire(r)
  }

  predicate InspectionFails(m: Memory, d: Disk, faults: Faults)
    requires BindingValid(m)
  {
    exists id :: id in m.ready && Inspect(m, d, faults, id) == Refuse
  }

  /** `rs` lists every consumed delivery a save may retire, once each, in some order. */
  ghost predicate IsRetirementList(rs: seq<Retirement>, m: Memory, d: Disk, faults: Faults)
    requires BindingValid(m)
  {
    && (forall i, j :: 0 <= i < j < |rs| ==> rs[i].id != rs[j].id)
    && (forall i :: 0 <= i < |rs| ==>
          rs[i].id in m.ready && rs[i].digest == m.ready[rs[i].id]
          && Inspect(m, d, faults, rs[i].id) == Retire(rs[i].receipt))
    && (forall id :: id in m.ready && Inspect(m, d, faults, id).Retire? ==>
          exists i :: 0 <= i < |rs| && rs[i].id == id)
  }

  // ----- what a save writes

  function ClearCompleted(pending: map<ReceiptId, Generation>, receipt: Receipt): map<ReceiptId, Generation> {
    var base := BaseId(receipt.ref);
    if base in pending && pending[base] == receipt.ref.generation then pending - {base} else pending
  }

  function ClearAll(pending: map<ReceiptId, Generation>, rs: seq<Retirement>): map<ReceiptId, Generation> {
    if rs == [] then pending else ClearAll(ClearCompleted(pending, rs[0].receipt), rs[1..])
  }

  function DocOf(m: Memory, rs: seq<Retirement>): StateDoc {
    StateDoc(m.binding, m.bookkeeping, ClearAll(m.pending, rs), m.owners)
  }

  datatype Point = Point(memory: Memory, disk: Disk)

  function RetireOne(p: Point, r: Retirement, faults: Faults): Point
    requires p.memory.binding.Some?
  {
    var m := p.memory.(pending := ClearCompleted(p.memory.pending, r.receipt));
    var path := PathOf(m, r.id);
    var dropped := m.(ready := m.ready - {r.id}, bookkeeping := m.bookkeeping - {r.id});
    if path !in p.disk.receipts then Point(dropped, p.disk)
    else if r.id in faults.unlink then Point(m, p.disk)
    else if Sha256(p.disk.receipts[path]) != r.digest then Point(m, p.disk)
    else Point(dropped, p.disk.(receipts := p.disk.receipts - {path}))
  }

  function RetireAll(p: Point, rs: seq<Retirement>, faults: Faults): (q: Point)
    requires rs != [] ==> p.memory.binding.Some?
    ensures q.memory.binding == p.memory.binding
    decreases |rs|
  {
    if rs == [] then p else RetireAll(RetireOne(p, rs[0], faults), rs[1..], faults)
  }

  /** The durable state after each retirement in turn. */
  function RetireDisks(p: Point, rs: seq<Retirement>, faults: Faults): (ds: seq<Disk>)
    requires rs != [] ==> p.memory.binding.Some?
    ensures |ds| == |rs|
    decreases |rs|
  {
    if rs == [] then []
    else
      var q := RetireOne(p, rs[0], faults);
      [q.disk] + RetireDisks(q, rs[1..], faults)
  }

  predicate MarkerStays(m: Memory, d: Disk, faults: Faults, id: ReceiptId) {
    m.binding.None? || id in faults.stat || PathOf(m, id) in d.receipts
  }

  /** Drop every marker whose receipt file no longer exists. */
  function DropAbsent(p: Point, faults: Faults): Memory {
    var gone := set id | id in p.memory.bookkeeping && !MarkerStays(p.memory, p.disk, faults, id);
    p.memory.(bookkeeping := p.memory.bookkeeping - gone, ready := p.memory.ready - gone)
  }

  /** One call of `save_state`: the new memory, every durable state passed through in order, and
      whether it returned normally. */
  function Save(m: Memory, d: Disk, rs: seq<Retirement>, faults: Faults): Saved
    requires rs != [] ==> m.binding.Some?
  {
    if !BindingValid(m) || InspectionFails(m, d, faults) || faults.mapWrite then Saved(m, [], false)
    else
      var mapped := d.(mapFile := Some(m.messageMap));
      if faults.stateWrite then Saved(m, [mapped], false)
      else
        var written := mapped.(stateFile := Some(DocOf(m, rs)));
        var end := RetireAll(Point(m, written), rs, faults);
        Saved(DropAbsent(end, faults), [mapped, written] + RetireDisks(Point(m, written), rs, faults), true)
  }

  datatype Begun = Begun(memory: Memory, disks: seq<Disk>, ref: Option<DeliveryRef>)

  /** `begin_delivery_replacement`: reuse the pending generation or save a new one first. */
  function Begin(m: Memory, d: Disk, ref: DeliveryRef, uuid: nat, rs: seq<Retirement>, faults: Faults): Begun
    requires rs != [] ==> m.binding.Some?
  {
    var key := BaseId(ref);
    if key in m.pending then Begun(m, [], Some(ref.(generation := m.pending[key])))
    else
      var s := Save(m.(pending := m.pending[key := Minted(uuid)]), d, rs, faults);
      if s.ok then Begun(s.memory, s.disks, Some(ref.(generation := Minted(uuid))))
      else Begun(s.memory.(pending := s.memory.pending - {key}), s.disks, None)
  }

  /** `ensure_delivery_namespace`: bind once, and undo the binding when it cannot be saved. */
  function Bind(m: Memory, d: Disk, binding: Binding, rs: seq<Retirement>, faults: Faults): Saved
    requires rs != [] ==> m.binding.Some?
  {
    if m.binding.Some? then Saved(m, [], m.binding.value.service == binding.service)
    else if !BindingValid(m) then Saved(m, [], false)
    else
      var s := Save(m.(binding := Some(binding)), d, rs, faults);
      if s.ok then s else Saved(s.memory.(binding := None), s.disks, false)
  }

  /** `load_state` on a version 2 folder: cleanup capabilities are never restored. */
  function Load(d: Disk): Option<Memory> {
    match d.stateFile
    case None => None
    case Some(doc) =>
      Some(Memory(doc.binding, doc.bookkeeping, doc.pending, map[],
                  if d.mapFile.Some? then d.mapFile.value else map[], doc.owners))
  }

  // ----- what one save guarantees

  /** Bookkeeping for this receipt is already durable in the same folder. */
  ghost predicate Committed(d: Disk, path: ReceiptPath) {
    && d.stateFile.Some?
    && path in d.receipts
    && d.receipts[path].Document?
    && var doc := d.stateFile.value;
       var r := d.receipts[path].receipt;
       && doc.binding == Some(Binding(path.namespace, r.service))
       && ReceiptId(r.ref) == path.id
       && WellFormed(r) && FullyAcknowledged(r)
       && path.id in doc.owners
       && path.id in doc.bookkeeping && doc.bookkeeping[path.id] == r.parts[0].messageId
  }

  /** Between two neighbouring durable states nothing but a committed receipt disappears, and only
      with exactly the contents that were consumed; no receipt is altered. */
  ghost predicate OnlyCommittedGone(m: Memory, d: Disk, e: Disk) {
    && (forall path :: path in d.receipts && path !in e.receipts ==>
          Committed(d, path) && path.id in m.ready && m.ready[path.id] == Sha256(d.receipts[path]))
    && (forall path :: path in e.receipts ==> path in d.receipts && d.receipts[path] == e.receipts[path])
  }

  ghost predicate Lists(rs: seq<Retirement>, m: Memory, d: Disk, faults: Faults) {
    && (rs != [] ==> m.binding.Some?)
    && if BindingValid(m) && !InspectionFails(m, d, faults) then IsRetirementList(rs, m, d, faults) else rs == []
  }

  lemma {:induction false} RetireAllClearsPending(p: Point, rs: seq<Retirement>, faults: Faults)
    requires rs != [] ==> p.memory.binding.Some?
    ensures RetireAll(p, rs, faults).memory.pending == ClearAll(p.memory.pending, rs)
    ensures RetireAll(p, rs, faults).memory.messageMap == p.memory.messageMap
    ensures RetireAll(p, rs, faults).memory.owners == p.memory.owners
    ensures RetireAll(p, rs, faults).disk.stateFile == p.disk.stateFile
    ensures RetireAll(p, rs, faults).disk.mapFile == p.disk.mapFile
    ensures RetireAll(p, rs, faults).disk == ([p.disk] + RetireDisks(p, rs, faults))[|rs|]
    ensures RetireAll(p, rs, faults).memory.ready.Keys <= p.memory.ready.Keys
    decreases |rs|
  {
    if rs != [] {
      var q := RetireOne(p, rs[0], faults);
      RetireAllClearsPending(q, rs[1..], faults);
      assert RetireDisks(p, rs, faults) == [q.disk] + RetireDisks(q, rs[1..], faults);
    }
  }

  /** A retirement whose document is already in the durable `state.json`. */
  ghost predicate Backed(r: Retirement, doc: StateDoc) {
    && r.digest == Sha256(Document(r.receipt))
    && doc.binding == Some(Binding(r.receipt.namespace, r.receipt.service))
    && ReceiptId(r.receipt.ref) == r.id
    && WellFormed(r.receipt) && FullyAcknowledged(r.receipt)
    && r.id in doc.owners
    && r.id in doc.bookkeeping && doc.bookkeeping[r.id] == r.receipt.parts[0].messageId
  }

  /** Every neighbouring pair of `[d] + ds` loses committed receipts only. */
  ghost predicate Safe(m: Memory, d: Disk, ds: seq<Disk>)
    decreases |ds|
  {
    ds == [] || (OnlyCommittedGone(m, d, ds[0]) && Safe(m, ds[0], ds[1..]))
  }

  lemma {:induction false} RetireDisksSafe(m: Memory, p: Point, rs: seq<Retirement>, faults: Faults, doc: StateDoc)
    requires rs != [] ==> p.memory.binding.Some? && p.memory.binding == doc.binding
    requires p.disk.stateFile == Some(doc)
    requires forall i :: 0 <= i < |rs| ==>
               Backed(rs[i], doc) && rs[i].id in m.ready && m.ready[rs[i].id] == rs[i].digest
    ensures Safe(m, p.disk, RetireDisks(p, rs, faults))
    decreases |rs|
  {
    if rs != [] {
      var q := RetireOne(p, rs[0], faults);
      assert Backed(rs[0], doc);
      assert OnlyCommittedGone(m, p.disk, q.disk);
      RetireDisksSafe(m, q, rs[1..], faults, doc);
      assert RetireDisks(p, rs, faults)[1..] == RetireDisks(q, rs[1..], faults);
    }
  }

  lemma SameReceiptsLoseNothing(m: Memory, d: Disk, e: Disk)
    requires d.receipts == e.receipts
    ensures OnlyCommittedGone(m, d, e)
  {
  }

  /** What is listed for retirement is backed by the document of this save. */
  lemma ListedAreBacked(m: Memory, d: Disk, rs: seq<Retirement>, faults: Faults, i: nat)
    requires m.binding.Some? && m.ready.Keys <= m.owners
    requires i < |rs| && IsRetirementList(rs, m, d, faults)
    ensures Backed(rs[i], DocOf(m, rs))
    ensures rs[i].id in m.ready && m.ready[rs[i].id] == rs[i].digest
  {
  }

  /** At every crash point of a save, a receipt is gone only when `state.json` already holds the
      marker for it, every part was acknowledged and its bytes were the consumed ones. */
  lemma SaveRemovesOnlyCommitted(m: Memory, d: Disk, rs: seq<Retirement>, faults: Faults)
    requires Lists(rs, m, d, faults)
    requires m.ready.Keys <= m.owners
    ensures Safe(m, d, Save(m, d, rs, faults).disks)
  {
    var s := Save(m, d, rs, faults);
    var mapped := d.(mapFile := Some(m.messageMap));
    SameReceiptsLoseNothing(m, d, mapped);
    if s.ok {
      var doc := DocOf(m, rs);
      var written := mapped.(stateFile := Some(doc));
      var tail := RetireDisks(Point(m, written), rs, faults);
      forall i | 0 <= i < |rs|
        ensures Backed(rs[i], doc) && rs[i].id in m.ready && m.ready[rs[i].id] == rs[i].digest
      {
        ListedAreBacked(m, d, rs, faults, i);
      }
      RetireDisksSafe(m, Point(m, written), rs, faults, doc);
      SameReceiptsLoseNothing(m, mapped, written);
      assert s.disks == [mapped, written] + tail;
      SafeCons(m, mapped, written, tail);
      SafeCons(m, d, mapped, [written] + tail);
    }
  }

  lemma SafeCons(m: Memory, d: Disk, e: Disk, tail: seq<Disk>)
    requires OnlyCommittedGone(m, d, e) && Safe(m, e, tail)
    ensures Safe(m, d, [e] + tail)
  {
    assert ([e] + tail)[1..] == tail;
  }

  /** When a save returns normally, the pending replacements, the binding and the owners in memory
      are the durable ones, both documents are the ones of this save, and every marker still held
      has a receipt file behind it unless that file could not be inspected. */
  lemma SaveAgreesWithDisk(m: Memory, d: Disk, rs: seq<Retirement>, faults: Faults)
    requires rs != [] ==> m.binding.Some?
    requires Save(m, d, rs, faults).ok
    ensures var s := Save(m, d, rs, faults);
            var end := s.disks[|s.disks| - 1];
            && |s.disks| == 2 + |rs|
            && end.stateFile == Some(DocOf(m, rs)) && end.mapFile == Some(m.messageMap)
            && s.memory.pending == end.stateFile.value.pending
            && s.memory.binding == end.stateFile.value.binding
            && s.memory.owners == end.stateFile.value.owners
            && s.memory.ready.Keys <= m.ready.Keys
            && (forall id :: id in s.memory.bookkeeping ==> MarkerStays(s.memory, end, faults, id))
  {
    var written := d.(mapFile := Some(m.messageMap), stateFile := Some(DocOf(m, rs)));
    RetireAllClearsPending(Point(m, written), rs, faults);
    var s := Save(m, d, rs, faults);
    assert s.disks[1..] == [written] + RetireDisks(Point(m, written), rs, faults);
    assert s.disks[|s.disks| - 1] == s.disks[1..][|rs|];
  }

  /** A pending replacement leaves `state.json` exactly when a receipt of its generation is retired. */
  lemma {:induction false} ClearAllExact(pending: map<ReceiptId, Generation>, rs: seq<Retirement>, base: ReceiptId)
    requires base in pending
    ensures var cleared := ClearAll(pending, rs);
            && cleared.Keys <= pending.Keys
            && (base in cleared ==> cleared[base] == pending[base])
            && (base !in cleared <==>
                  exists i :: 0 <= i < |rs| && BaseId(rs[i].receipt.ref) == base
                              && rs[i].receipt.ref.generation == pending[base])
    decreases |rs|
  {
    if rs != [] {
      var next := ClearCompleted(pending, rs[0].receipt);
      ClearAllKeys(next, rs[1..]);
      if base in next {
        ClearAllExact(next, rs[1..], base);
        if base !in ClearAll(pending, rs) {
          var i :| 0 <= i < |rs[1..]| && BaseId(rs[1..][i].receipt.ref) == base
                   && rs[1..][i].receipt.ref.generation == next[base];
          assert rs[i + 1] == rs[1..][i];
        }
        if i :| 0 <= i < |rs| && BaseId(rs[i].receipt.ref) == base && rs[i].receipt.ref.generation == pending[base] {
          assert i > 0 && rs[1..][i - 1] == rs[i];
        }
      } else {
        assert rs[0].receipt.ref.generation == pending[base];
      }
    }
  }

  lemma {:induction false} ClearAllKeys(pending: map<ReceiptId, Generation>, rs: seq<Retirement>)
    ensures ClearAll(pending, rs).Keys <= pending.Keys
    ensures forall k :: k in ClearAll(pending, rs) ==> ClearAll(pending, rs)[k] == pending[k]
    decreases |rs|
  {
    if rs != [] {
      ClearAllKeys(ClearCompleted(pending, rs[0].receipt), rs[1..]);
    }
  }

  // ----- what one save does, from the files and the memory it starts with

  /** A consumed delivery that is finished: its file still holds the consumed contents, which are the
      receipt of this delivery and binding with every part acknowledged under an id of its own key,
      and the marker is the id of the first part. */
  predicate Finished(m: Memory, d: Disk, id: ReceiptId) {
    && m.binding.Some? && id in m.ready && id in m.bookkeeping
    && var path := ReceiptPath(m.binding.value.namespace, id);
       && path in d.receipts && m.ready[id] == Sha256(d.receipts[path]) && d.receipts[path].Document?
       && var r := d.receipts[path].receipt;
          && r.namespace == m.binding.value.namespace && r.service == m.binding.value.service && r.ref == id.ref
          && |r.parts| > 0 && m.bookkeeping[id] == r.parts[0].messageId
          && (forall i :: 0 <= i < |r.parts| ==> r.parts[i].status == Acknowledged && IsStoatId(r.parts[i].messageId))
          && (forall i, j :: 0 <= i < j < |r.parts| ==> r.parts[i].key != r.parts[j].key)
  }

  /** A consumed delivery whose file makes a save refuse: it cannot be read, or it holds the consumed
      contents and they are no receipt of this delivery and binding. */
  predicate Refused(m: Memory, d: Disk, faults: Faults, id: ReceiptId) {
    && m.binding.Some? && id in m.ready
    && var path := ReceiptPath(m.binding.value.namespace, id);
       && path in d.receipts
       && (|| id in faults.inspect
           || (&& m.ready[id] == Sha256(d.receipts[path])
               && (|| d.receipts[path].Malformed?
                   || !WellFormed(d.receipts[path].receipt)
                   || d.receipts[path].receipt.ref != id.ref
                   || d.receipts[path].receipt.namespace != m.binding.value.namespace
                   || d.receipts[path].receipt.service != m.binding.value.service)))
  }

  lemma RefusedExactly(m: Memory, d: Disk, faults: Faults, id: ReceiptId)
    requires m.binding.Some? && id in m.ready
    ensures Inspect(m, d, faults, id) == Refuse <==> Refused(m, d, faults, id)
  {
  }

  lemma RetiredExactly(m: Memory, d: Disk, faults: Faults, id: ReceiptId)
    requires m.binding.Some? && id in m.ready && !Refused(m, d, faults, id)
    ensures Inspect(m, d, faults, id).Retire? <==> Finished(m, d, id)
    ensures Inspect(m, d, faults, id).Retire? ==>
              Inspect(m, d, faults, id).receipt == d.receipts[ReceiptPath(m.binding.value.namespace, id)].receipt
  {
  }

  lemma ConsumedExactly(m: Memory, d: Disk, rs: seq<Retirement>, faults: Faults)
    requires BindingValid(m) && !InspectionFails(m, d, faults) && IsRetirementList(rs, m, d, faults)
    ensures forall id :: !Refused(m, d, faults, id)
    ensures forall id :: (exists i :: 0 <= i < |rs| && rs[i].id == id) <==> Finished(m, d, id)
  {
    forall id ensures !Refused(m, d, faults, id) {
      if m.binding.Some? && id in m.ready {
        RefusedExactly(m, d, faults, id);
      }
    }
    forall id ensures (exists i :: 0 <= i < |rs| && rs[i].id == id) <==> Finished(m, d, id) {
      if m.binding.Some? && id in m.ready {
        RetiredExactly(m, d, faults, id);
      }
    }
  }

  /** A save returns exactly when there is a binding or nothing to bind, no consumed delivery is
      refused and both documents can be written; otherwise the memory is unchanged, and so is the
      folder unless only the state document could not be written. */
  lemma SaveReturnsExactly(m: Memory, d: Disk, rs: seq<Retirement>, faults: Faults)
    requires Lists(rs, m, d, faults)
    ensures var s := Save(m, d, rs, faults);
            var inspected := && (m.binding.Some? || (m.bookkeeping == map[] && m.pending == map[] && m.ready == map[]))
                             && forall id :: id in m.ready ==> !Refused(m, d, faults, id);
            && (s.ok <==> inspected && !faults.mapWrite && !faults.stateWrite)
            && (!s.ok ==> s.memory == m
                          && s.disks == if inspected && !faults.mapWrite then [Disk(Some(m.messageMap), d.stateFile, d.receipts)] else [])
  {
    forall id | m.binding.Some? && id in m.ready ensures Inspect(m, d, faults, id) == Refuse <==> Refused(m, d, faults, id) {
      RefusedExactly(m, d, faults, id);
    }
  }

  /** The listed deliveries whose file the operating system lets go. */
  function Unlinked(rs: seq<Retirement>, faults: Faults): (ids: set<ReceiptId>)
    ensures forall id :: id in ids <==> id !in faults.unlink && exists i :: 0 <= i < |rs| && rs[i].id == id
  {
    set i | 0 <= i < |rs| && rs[i].id !in faults.unlink :: rs[i].id
  }

  ghost predicate Standing(p: Point, rs: seq<Retirement>) {
    && p.memory.binding.Some?
    && (forall i, j :: 0 <= i < j < |rs| ==> rs[i].id != rs[j].id)
    && forall i :: 0 <= i < |rs| ==>
         var path := ReceiptPath(p.memory.binding.value.namespace, rs[i].id);
         path in p.disk.receipts && rs[i].digest == Sha256(p.disk.receipts[path])
  }

  /** The ids in `gone` left the memory, and their files in this namespace the folder. */
  ghost predicate Lost(p: Point, q: Point, gone: set<ReceiptId>)
    requires p.memory.binding.Some?
  {
    && q.memory.bookkeeping == p.memory.bookkeeping - gone
    && q.memory.ready == p.memory.ready - gone
    && (forall path :: path in q.disk.receipts ==> path in p.disk.receipts && q.disk.receipts[path] == p.disk.receipts[path])
    && (forall path :: path in p.disk.receipts ==>
          (path in q.disk.receipts <==> !(path.namespace == p.memory.binding.value.namespace && path.id in gone)))
  }

  lemma RetireOneLoses(p: Point, r: Retirement, faults: Faults)
    requires Standing(p, [r])
    ensures var q := RetireOne(p, r, faults);
            q.memory.binding == p.memory.binding && Lost(p, q, if r.id in faults.unlink then {} else {r.id})
  {
    assert [r][0] == r;
  }

  lemma LostTwice(p: Point, q: Point, s: Point, a: set<ReceiptId>, b: set<ReceiptId>)
    requires p.memory.binding.Some? && q.memory.binding == p.memory.binding
    requires Lost(p, q, a) && Lost(q, s, b)
    ensures Lost(p, s, a + b)
  {
  }

  lemma {:induction false} RetireAllLoses(p: Point, rs: seq<Retirement>, faults: Faults)
    requires Standing(p, rs)
    ensures Lost(p, RetireAll(p, rs, faults), Unlinked(rs, faults))
    decreases |rs|
  {
    if rs != [] {
      var q := RetireOne(p, rs[0], faults);
      var first: set<ReceiptId> := if rs[0].id in faults.unlink then {} else {rs[0].id};
      RetireOneLoses(p, rs[0], faults);
      StandingAfter(p, rs, faults);
      RetireAllLoses(q, rs[1..], faults);
      LostTwice(p, q, RetireAll(q, rs[1..], faults), first, Unlinked(rs[1..], faults));
      UnlinkedCons(rs, faults);
    }
  }

  lemma StandingAfter(p: Point, rs: seq<Retirement>, faults: Faults)
    requires rs != [] && Standing(p, rs)
    ensures Standing(RetireOne(p, rs[0], faults), rs[1..])
  {
    var q := RetireOne(p, rs[0], faults);
    forall i | 0 <= i < |rs[1..]|
      ensures var path := ReceiptPath(q.memory.binding.value.namespace, rs[1..][i].id);
              path in q.disk.receipts && rs[1..][i].digest == Sha256(q.disk.receipts[path])
    {
      assert rs[1..][i] == rs[i + 1] && rs[i + 1].id != rs[0].id;
    }
  }

  lemma UnlinkedCons(rs: seq<Retirement>, faults: Faults)
    requires rs != []
    ensures Unlinked(rs, faults) == (if rs[0].id in faults.unlink then {} else {rs[0].id}) + Unlinked(rs[1..], faults)
  {
    assert forall i :: 0 <= i < |rs[1..]| ==> rs[1..][i] == rs[i + 1];
  }

  /** What is unlinked are the finished deliveries whose file the operating system lets go. */
  lemma UnlinkedAreFinished(m: Memory, d: Disk, rs: seq<Retirement>, faults: Faults, id: ReceiptId)
    requires Lists(rs, m, d, faults) && Save(m, d, rs, faults).ok
    ensures (exists i :: 0 <= i < |rs| && rs[i].id == id) <==> Finished(m, d, id)
    ensures id in Unlinked(rs, faults) <==> Finished(m, d, id) && id !in faults.unlink
  {
    ConsumedExactly(m, d, rs, faults);
  }

  lemma ListedStand(m: Memory, d: Disk, rs: seq<Retirement>, faults: Faults, disk: Disk)
    requires Lists(rs, m, d, faults) && Save(m, d, rs, faults).ok && m.binding.Some?
    requires disk.receipts == d.receipts
    ensures Standing(Point(m, disk), rs)
  {
  }

  /** A replacement that waits for its delivery is done: a finished delivery has its generation. */
  ghost predicate Replaced(m: Memory, d: Disk, base: ReceiptId)
    requires base in m.pending
  {
    exists id :: Finished(m, d, id) && ReceiptId(Logical(id.ref)) == base && id.ref.generation == m.pending[base]
  }

  lemma PendingAfter(m: Memory, d: Disk, rs: seq<Retirement>, faults: Faults, base: ReceiptId)
    requires Lists(rs, m, d, faults) && Save(m, d, rs, faults).ok
    ensures base in ClearAll(m.pending, rs) <==> base in m.pending && !Replaced(m, d, base)
    ensures base in ClearAll(m.pending, rs) ==> ClearAll(m.pending, rs)[base] == m.pending[base]
  {
    ClearAllKeys(m.pending, rs);
    if base in m.pending {
      ClearAllExact(m.pending, rs, base);
      forall i | 0 <= i < |rs| ensures Finished(m, d, rs[i].id) && rs[i].receipt.ref == rs[i].id.ref {
        UnlinkedAreFinished(m, d, rs, faults, rs[i].id);
      }
      if id :| Finished(m, d, id) && ReceiptId(Logical(id.ref)) == base && id.ref.generation == m.pending[base] {
        UnlinkedAreFinished(m, d, rs, faults, id);
        var i :| 0 <= i < |rs| && rs[i].id == id;
        assert BaseId(rs[i].receipt.ref) == base;
      }
    }
  }

  /** The point a save has reached when every listed delivery had its turn. */
  function Retired(m: Memory, d: Disk, rs: seq<Retirement>, faults: Faults): Point
    requires rs != [] ==> m.binding.Some?
  {
    RetireAll(Point(m, Disk(Some(m.messageMap), Some(DocOf(m, rs)), d.receipts)), rs, faults)
  }

  lemma SaveEndsRetired(m: Memory, d: Disk, rs: seq<Retirement>, faults: Faults)
    requires rs != [] ==> m.binding.Some?
    requires Save(m, d, rs, faults).ok
    ensures var s, q := Save(m, d, rs, faults), Retired(m, d, rs, faults);
            && s.memory == DropAbsent(q, faults) && s.disks[|s.disks| - 1] == q.disk
            && q.memory.binding == m.binding && q.memory.owners == m.owners && q.memory.messageMap == m.messageMap
            && q.memory.pending == ClearAll(m.pending, rs)
            && q.disk.stateFile == Some(DocOf(m, rs)) && q.disk.mapFile == Some(m.messageMap)
  {
    var p := Point(m, Disk(Some(m.messageMap), Some(DocOf(m, rs)), d.receipts));
    RetireAllClearsPending(p, rs, faults);
    var s := Save(m, d, rs, faults);
    assert s.disks[1..] == [p.disk] + RetireDisks(p, rs, faults);
    assert s.disks[|s.disks| - 1] == s.disks[1..][|rs|];
  }

  lemma RetiredLoses(m: Memory, d: Disk, rs: seq<Retirement>, faults: Faults)
    requires Lists(rs, m, d, faults) && Save(m, d, rs, faults).ok && m.binding.Some?
    ensures Lost(Point(m, d), Retired(m, d, rs, faults), Unlinked(rs, faults))
  {
    var written := Disk(Some(m.messageMap), Some(DocOf(m, rs)), d.receipts);
    ListedStand(m, d, rs, faults, written);
    RetireAllLoses(Point(m, written), rs, faults);
  }

  lemma DropAbsentExactly(p: Point, q: Point, gone: set<ReceiptId>, faults: Faults, id: ReceiptId)
    requires p.memory.binding.Some? && q.memory.binding == p.memory.binding && Lost(p, q, gone)
    ensures var after := DropAbsent(q, faults);
            var absent := id !in faults.stat && ReceiptPath(p.memory.binding.value.namespace, id) !in p.disk.receipts;
            && (id in after.bookkeeping <==> id in p.memory.bookkeeping && id !in gone && !absent)
            && (id in after.bookkeeping ==> after.bookkeeping[id] == p.memory.bookkeeping[id])
            && (id in after.ready <==> id in p.memory.ready && id !in gone && !(id in p.memory.bookkeeping && absent))
            && (id in after.ready ==> after.ready[id] == p.memory.ready[id])
  {
  }

  /** Main result on one save that returned, from the files and the memory it started with: exactly
      the finished deliveries that can be unlinked lose file, marker and permission, a marker goes
      besides only when its file is absent, a pending replacement goes exactly when a delivery of its
      generation is finished, and nothing else changes. */
  lemma SaveExactly(m: Memory, d: Disk, rs: seq<Retirement>, faults: Faults, id: ReceiptId)
    requires Lists(rs, m, d, faults) && Save(m, d, rs, faults).ok
    ensures var s := Save(m, d, rs, faults);
            var after, end := s.memory, s.disks[|s.disks| - 1];
            var retired := Finished(m, d, id) && id !in faults.unlink;
            var absent := m.binding.Some? && id !in faults.stat && ReceiptPath(m.binding.value.namespace, id) !in d.receipts;
            && (id in after.bookkeeping <==> id in m.bookkeeping && !retired && !absent)
            && (id in after.bookkeeping ==> after.bookkeeping[id] == m.bookkeeping[id])
            && (id in after.ready <==> id in m.ready && !retired && !(id in m.bookkeeping && absent))
            && (id in after.ready ==> after.ready[id] == m.ready[id])
            && (id in after.pending <==> id in m.pending && !Replaced(m, d, id))
            && (id in after.pending ==> after.pending[id] == m.pending[id])
            && after.binding == m.binding && after.owners == m.owners && after.messageMap == m.messageMap
            && end.stateFile == Some(StateDoc(m.binding, m.bookkeeping, after.pending, m.owners))
            && end.mapFile == Some(m.messageMap)
  {
    var q := Retired(m, d, rs, faults);
    SaveEndsRetired(m, d, rs, faults);
    PendingAfter(m, d, rs, faults, id);
    if m.binding.Some? {
      UnlinkedAreFinished(m, d, rs, faults, id);
      RetiredLoses(m, d, rs, faults);
      DropAbsentExactly(Point(m, d), q, Unlinked(rs, faults), faults, id);
    }
  }

  /** The same result on the receipt files: one is gone exactly when it belongs to a finished
      delivery of this binding that can be unlinked, and any other is the file it was. */
  lemma SaveFilesExactly(m: Memory, d: Disk, rs: seq<Retirement>, faults: Faults, path: ReceiptPath)
    requires Lists(rs, m, d, faults) && Save(m, d, rs, faults).ok
    ensures var s := Save(m, d, rs, faults);
            var end := s.disks[|s.disks| - 1];
            && (path in end.receipts <==>
                  path in d.receipts
                  && !(m.binding.Some? && path.namespace == m.binding.value.namespace
                       && Finished(m, d, path.id) && path.id !in faults.unlink))
            && (path in end.receipts ==> end.receipts[path] == d.receipts[path])
  {
    SaveEndsRetired(m, d, rs, faults);
    if m.binding.Some? {
      UnlinkedAreFinished(m, d, rs, faults, path.id);
      RetiredLoses(m, d, rs, faults);
    }
  }

  lemma {:induction false} RetireDisksKeepDocuments(p: Point, rs: seq<Retirement>, faults: Faults)
    requires rs != [] ==> p.memory.binding.Some?
    ensures forall e :: e in RetireDisks(p, rs, faults) ==> e.stateFile == p.disk.stateFile && e.mapFile == p.disk.mapFile
    decreases |rs|
  {
    if rs != [] {
      RetireDisksKeepDocuments(RetireOne(p, rs[0], faults), rs[1..], faults);
    }
  }

  /** Whatever state a save leaves behind, cut short or not, once its state document is written, loading
      it restores the maps, owners and binding that were saved and the pending replacements without the
      finished ones, and no permission to clean up. */
  lemma SaveThenLoad(m: Memory, d: Disk, rs: seq<Retirement>, faults: Faults, k: nat)
    requires Lists(rs, m, d, faults) && Save(m, d, rs, faults).ok && 1 <= k < |Save(m, d, rs, faults).disks|
    ensures var s := Save(m, d, rs, faults);
            Load(s.disks[k]) == Some(Memory(m.binding, m.bookkeeping, s.memory.pending, map[], m.messageMap, m.owners))
  {
    var s := Save(m, d, rs, faults);
    var p := Point(m, Disk(Some(m.messageMap), Some(DocOf(m, rs)), d.receipts));
    SaveEndsRetired(m, d, rs, faults);
    RetireDisksKeepDocuments(p, rs, faults);
    assert s.disks[1..] == [p.disk] + RetireDisks(p, rs, faults);
    assert s.disks[k] == s.disks[1..][k - 1];
  }

  /** Cut short between its two documents, a save leaves the old state document with the new map. */
  lemma CutBetweenDocuments(m: Memory, d: Disk, rs: seq<Retirement>, faults: Faults)
    requires Lists(rs, m, d, faults) && |Save(m, d, rs, faults).disks| > 0
    ensures var e := Save(m, d, rs, faults).disks[0];
            && e == Disk(Some(m.messageMap), d.stateFile, d.receipts)
            && (Load(e).None? <==> d.stateFile.None?)
            && (d.stateFile.Some? ==>
                  var doc := d.stateFile.value;
                  Load(e) == Some(Memory(doc.binding, doc.bookkeeping, doc.pending, map[], m.messageMap, doc.owners)))
  {
  }

  /** A folder is bound once: a bound one accepts its own service only and nothing changes; an unbound
      one takes the binding exactly when nothing is recorded yet and both documents can be written,
      then the binding is all that was added, and otherwise the memory is as before. With nothing
      consumed there is nothing to retire. */
  lemma BindOnce(m: Memory, d: Disk, binding: Binding, faults: Faults)
    ensures var s := Bind(m, d, binding, [], faults);
            && (m.binding.Some? ==> s.memory == m && s.disks == [] && (s.ok <==> m.binding.value.service == binding.service))
            && (m.binding.None? ==>
                  && (s.ok <==> m.bookkeeping == map[] && m.pending == map[] && m.ready == map[]
                                && !faults.mapWrite && !faults.stateWrite)
                  && s.memory == (if s.ok then m.(binding := Some(binding)) else m)
                  && (s.ok ==> s.disks[|s.disks| - 1] ==
                                 Disk(Some(m.messageMap), Some(StateDoc(Some(binding), map[], map[], m.owners)), d.receipts)))
  {
    var n := m.(binding := Some(binding));
    if m.binding.None? && BindingValid(m) {
      SaveReturnsExactly(n, d, [], faults);
      assert DropAbsent(Point(n, d), faults).bookkeeping == map[];
      assert DropAbsent(Point(n, d), faults).ready == map[];
    }
  }
}
