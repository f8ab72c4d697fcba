/**
 `run_rollback`: channels are deleted by concurrent tasks, roles and emoji one after another, and
 every result is counted, remembered by id and saved.
 */
module Rollback {
  import opened Common

  datatype Kind = Mapped | Suspect | Role | Emoji

  datatype Task = Task(kind: Kind, id: string)

  /** What one delete call came to; a channel that is already gone counts as deleted. */
  datatype Outcome = Deleted | Refused(error: string)

  datatype Trouble = Trouble(entity: string, id: string, error: string)

  /** The counters and the id set of `RollbackProgress`. */
  datatype Progress = Progress(
    channels: nat,
    untracked: nat,
    roles: nat,
    emoji: nat,
    ids: set<string>,
    failures: seq<Trouble>
  )

  datatype SuspectChannel = SuspectChannel(id: string, optedIn: bool)

  /** The recorded entity maps' values, and what the fetched server lists. */
  datatype Roster = Roster(
    channels: seq<string>,
    roles: seq<string>,
    emoji: seq<string>,
    suspects: seq<SuspectChannel>,
    serverChannels: set<string>,
    serverRoles: set<string>
  )

  function Entity(k: Kind): string {
    match k
    case Mapped => "channel"
    case Suspect => "channel"
    case Role => "role"
    case Emoji => "emoji"
  }

  function Record(p: Progress, t: Task): Progress {
    var q := p.(ids := p.ids + {t.id});
    match t.kind
    case Mapped => q.(channels := q.channels + 1)
    case Suspect => q.(untracked := q.untracked + 1)
    case Role => q.(roles := q.roles + 1)
    case Emoji => q.(emoji := q.emoji + 1)
  }

  function Settle(p: Progress, t: Task, o: Outcome): Progress {
    match o
    case Deleted => Record(p, t)
    case Refused(error) => p.(failures := p.failures + [Trouble(Entity(t.kind), t.id, error)])
  }

  function Ids(ts: seq<Task>): (r: seq<string>)
    ensures |r| == |ts|
    ensures forall i :: 0 <= i < |ts| ==> r[i] == ts[i].id
  {
    seq(|ts|, i requires 0 <= i < |ts| => ts[i].id)
  }

  /** The tasks a run starts, as a set: recorded channels the server lists, and suspects the user
      chose, unless already rolled back. */
  function ChannelTasks(r: Roster, done: set<string>): (ts: set<Task>) {
    (set id | id in r.channels && id in r.serverChannels && id !in done :: Task(Mapped, id))
    + (set c | c in r.suspects && c.optedIn && c.id !in r.channels && c.id !in done :: Task(Suspect, c.id))
  }

  function Tasks(kind: Kind, ids: seq<string>): (r: seq<Task>)
    ensures |r| == |ids|
    ensures forall i :: 0 <= i < |ids| ==> r[i] == Task(kind, ids[i])
  {
    seq(|ids|, i requires 0 <= i < |ids| => Task(kind, ids[i]))
  }

  /** The serial loop over roles or emoji, up to where it noticed the cancellation. */
  function Serially(p: Progress, kind: Kind, ids: seq<string>, outcomes: seq<Outcome>): Progress
    requires |ids| <= |outcomes|
    decreases |ids|
  {
    if ids == [] then p
    else
      var last := |ids| - 1;
      var q := Serially(p, kind, ids[..last], outcomes);
      if ids[last] in q.ids then q else Settle(q, Task(kind, ids[last]), outcomes[last])
  }

  // ----- in place

  class RollbackRun {
    var channelsDeleted: nat
    var untrackedChannelsDeleted: nat
    var rolesDeleted: nat
    var emojiDeleted: nat
    var rolledBackIds: set<string>
    var failures: seq<Trouble>

    function Value(): Progress
      reads this
    {
      Progress(channelsDeleted, untrackedChannelsDeleted, rolesDeleted, emojiDeleted, rolledBackIds, failures)
    }

    constructor ()
      ensures Value() == Progress(0, 0, 0, 0, {}, [])
    {
      channelsDeleted, untrackedChannelsDeleted, rolesDeleted, emojiDeleted := 0, 0, 0, 0;
      rolledBackIds, failures := {}, [];
    }

    /** The part of a deletion after its call has answered. */
    method SettleOne(t: Task, o: Outcome)
      modifies this
      ensures Value() == Settle(old(Value()), t, o)
      ensures rolledBackIds == old(rolledBackIds) + (if o.Deleted? then {t.id} else {})
      ensures channelsDeleted == old(channelsDeleted) + (if o.Deleted? && t.kind.Mapped? then 1 else 0)
      ensures untrackedChannelsDeleted == old(untrackedChannelsDeleted) + (if o.Deleted? && t.kind.Suspect? then 1 else 0)
      ensures rolesDeleted == old(rolesDeleted) + (if o.Deleted? && t.kind.Role? then 1 else 0)
      ensures emojiDeleted == old(emojiDeleted) + (if o.Deleted? && t.kind.Emoji? then 1 else 0)
      ensures o.Deleted? ==> failures == old(failures)
      ensures o.Refused? ==>
                var entity := if t.kind.Role? then "role" else if t.kind.Emoji? then "emoji" else "channel";
                failures == old(failures) + [Trouble(entity, t.id, o.error)]
    {
      match o {
        case Refused(error) =>
          failures := failures + [Trouble(Entity(t.kind), t.id, error)];
        case Deleted =>
          match t.kind {
            case Mapped => channelsDeleted := channelsDeleted + 1;
            case Suspect => untrackedChannelsDeleted := untrackedChannelsDeleted + 1;
            case Role => rolesDeleted := rolesDeleted + 1;
            case Emoji => emojiDeleted := emojiDeleted + 1;
          }
          rolledBackIds := rolledBackIds + {t.id};
      }
    }

    /** The task list of a run names every target once. */
    method BuildChannelTasks(r: Roster) returns (tasks: seq<Task>, notListed: seq<string>)
      ensures NoDuplicates(Ids(tasks))
      ensures ToSet(tasks) == ChannelTasks(r, rolledBackIds)
      ensures forall t :: t in tasks <==>
                || (t.kind.Mapped? && t.id in r.channels && t.id in r.serverChannels && t.id !in rolledBackIds)
                || (t.kind.Suspect? && SuspectChannel(t.id, true) in r.suspects && t.id !in r.channels && t.id !in rolledBackIds)
      ensures forall id :: id in notListed <==>
                id in r.channels && id !in rolledBackIds && id !in r.serverChannels
    {
      tasks, notListed := [], [];
      var seen: set<string> := {};
      for i := 0 to |r.channels|
        invariant seen == ToSet(r.channels[..i])
        invariant NoDuplicates(Ids(tasks))
        invariant forall t :: t in tasks <==>
                    t.kind == Mapped && t.id in seen && t.id in r.serverChannels && t.id !in rolledBackIds
        invariant forall id :: id in notListed <==>
                    id in seen && id !in rolledBackIds && id !in r.serverChannels
      {
        var id := r.channels[i];
        assert r.channels[..i + 1] == r.channels[..i] + [id];
        if id in seen {
          continue;
        }
        seen := seen + {id};
        if id in rolledBackIds {
          continue;
        }
        if id !in r.serverChannels {
          notListed := notListed + [id];
          continue;
        }
        ExtendIds(tasks, Task(Mapped, id));
        tasks := tasks + [Task(Mapped, id)];
      }
      assert r.channels[..|r.channels|] == r.channels;
      ghost var mapped := tasks;
      for i := 0 to |r.suspects|
        invariant ToSet(r.channels) <= seen
        invariant forall id :: id in seen <==>
                    id in r.channels || SuspectChannel(id, true) in r.suspects[..i]
        invariant NoDuplicates(Ids(tasks))
        invariant forall t :: t in tasks <==>
                    t in mapped
                    || (t.kind == Suspect && SuspectChannel(t.id, true) in r.suspects[..i]
                        && t.id !in r.channels && t.id !in rolledBackIds)
      {
        var c := r.suspects[i];
        assert r.suspects[..i + 1] == r.suspects[..i] + [c];
        if c.optedIn && c.id !in seen {
          seen := seen + {c.id};
          if c.id in rolledBackIds {
            continue;
          }
          ExtendIds(tasks, Task(Suspect, c.id));
          tasks := tasks + [Task(Suspect, c.id)];
        }
      }
      assert r.suspects[..|r.suspects|] == r.suspects;
      forall t ensures t in tasks <==> t in ChannelTasks(r, rolledBackIds) {
        if t.kind == Suspect && SuspectChannel(t.id, true) in r.suspects && t.id !in r.channels && t.id !in rolledBackIds {
          assert SuspectChannel(t.id, true).optedIn;
        }
      }
    }

    /** Roles or emoji, one at a time; `stop` is the turn at which the cancellation is noticed. An
        id is tried again when an earlier try for it in the same list was refused. */
    method DeleteSerially(kind: Kind, ids: seq<string>, outcomes: seq<Outcome>, stop: nat) returns (attempted: set<string>)
      requires |ids| <= |outcomes|
      modifies this
      ensures Value() == Serially(old(Value()), kind, ids[..if stop < |ids| then stop else |ids|], outcomes)
      ensures attempted <= ToSet(ids) - old(rolledBackIds)
      ensures |ids| <= stop ==> attempted == ToSet(ids) - old(rolledBackIds)
      ensures rolledBackIds <= old(rolledBackIds) + attempted
      ensures var n := if stop < |ids| then stop else |ids|;
              rolledBackIds == old(rolledBackIds) + DeletedBy(ids, outcomes, n)
    {
      attempted := {};
      for i := 0 to |ids|
        invariant i <= stop
        invariant Value() == Serially(old(Value()), kind, ids[..i], outcomes)
        invariant attempted == ToSet(ids[..i]) - old(rolledBackIds)
        invariant old(rolledBackIds) <= rolledBackIds <= old(rolledBackIds) + attempted
      {
        if i == stop {
          DeletedInFront(old(Value()), kind, ids, outcomes, i);
          return;
        }
        assert ids[..i + 1] == ids[..i] + [ids[i]];
        if ids[i] in rolledBackIds {
          continue;
        }
        attempted := attempted + {ids[i]};
        SettleOne(Task(kind, ids[i]), outcomes[i]);
      }
      assert ids[..|ids|] == ids;
      DeletedInFront(old(Value()), kind, ids, outcomes, |ids|);
    }
  }

  /** A turn calls the server: neither an earlier run nor an earlier turn deleted the id. */
  predicate Called(done: set<string>, ids: seq<string>, outcomes: seq<Outcome>, i: nat)
    requires i < |ids| <= |outcomes|
  {
    ids[i] !in done && forall j :: 0 <= j < i && ids[j] == ids[i] ==> outcomes[j].Refused?
  }

  /** The ids that one of the first `n` calls deleted. */
  ghost function DeletedBy(ids: seq<string>, outcomes: seq<Outcome>, n: nat): (r: set<string>)
    requires n <= |ids| <= |outcomes|
    ensures forall id :: id in r <==> exists i :: 0 <= i < n && outcomes[i].Deleted? && ids[i] == id
  {
    set i | 0 <= i < n && outcomes[i].Deleted? :: ids[i]
  }

  /** An id is rolled back by the serial loop when it was before or the server deleted it. */
  lemma {:induction false} SeriallyRollsBack(p: Progress, kind: Kind, ids: seq<string>, outcomes: seq<Outcome>)
    requires |ids| <= |outcomes|
    ensures Serially(p, kind, ids, outcomes).ids == p.ids + DeletedBy(ids, outcomes, |ids|)
    decreases |ids|
  {
    if ids != [] {
      var last := |ids| - 1;
      var front := ids[..last];
      SeriallyRollsBack(p, kind, front, outcomes);
      var before, after := DeletedBy(front, outcomes, last), DeletedBy(ids, outcomes, |ids|);
      assert forall i :: 0 <= i < last ==> front[i] == ids[i];
      assert after == before + (if outcomes[last].Deleted? then {ids[last]} else {});
    }
  }

  lemma DeletedInFront(p: Progress, kind: Kind, ids: seq<string>, outcomes: seq<Outcome>, n: nat)
    requires n <= |ids| <= |outcomes|
    ensures Serially(p, kind, ids[..n], outcomes).ids == p.ids + DeletedBy(ids, outcomes, n)
  {
    SeriallyRollsBack(p, kind, ids[..n], outcomes);
    assert DeletedBy(ids[..n], outcomes, n) == DeletedBy(ids, outcomes, n) by {
      assert forall i :: 0 <= i < n ==> ids[..n][i] == ids[i];
    }
  }

  /** The counter of its kind, and no other, grows by the number of ids it rolled back. */
  lemma {:induction false} SeriallyCounts(p: Progress, kind: Kind, ids: seq<string>, outcomes: seq<Outcome>)
    requires |ids| <= |outcomes|
    ensures var q := Serially(p, kind, ids, outcomes);
            var n := |q.ids| - |p.ids|;
            && q.channels == p.channels + (if kind.Mapped? then n else 0)
            && q.untracked == p.untracked + (if kind.Suspect? then n else 0)
            && q.roles == p.roles + (if kind.Role? then n else 0)
            && q.emoji == p.emoji + (if kind.Emoji? then n else 0)
    decreases |ids|
  {
    if ids != [] {
      SeriallyCounts(p, kind, ids[..|ids| - 1], outcomes);
    }
  }

  /** Every refused call is on the failure list, and no earlier failure is lost. */
  lemma {:induction false} SeriallyReports(p: Progress, kind: Kind, ids: seq<string>, outcomes: seq<Outcome>)
    requires |ids| <= |outcomes|
    ensures p.failures <= Serially(p, kind, ids, outcomes).failures
    ensures forall i :: 0 <= i < |ids| && Called(p.ids, ids, outcomes, i) && outcomes[i].Refused? ==>
              Trouble(Entity(kind), ids[i], outcomes[i].error) in Serially(p, kind, ids, outcomes).failures
    decreases |ids|
  {
    if ids != [] {
      var last := |ids| - 1;
      var front := ids[..last];
      SeriallyReports(p, kind, front, outcomes);
      SeriallyRollsBack(p, kind, front, outcomes);
      var q, r := Serially(p, kind, front, outcomes), Serially(p, kind, ids, outcomes);
      assert q.failures <= r.failures;
      forall i | 0 <= i < |ids| && Called(p.ids, ids, outcomes, i) && outcomes[i].Refused?
        ensures Trouble(Entity(kind), ids[i], outcomes[i].error) in r.failures
      {
        if i < last {
          CalledBefore(p.ids, ids, outcomes, last, i);
        } else {
          assert ids[last] !in q.ids;
        }
      }
    }
  }

  lemma CalledBefore(done: set<string>, ids: seq<string>, outcomes: seq<Outcome>, n: nat, i: nat)
    requires i < n <= |ids| <= |outcomes| && Called(done, ids, outcomes, i)
    ensures Called(done, ids[..n], outcomes, i)
  {
  }

  lemma ExtendIds(ts: seq<Task>, t: Task)
    requires NoDuplicates(Ids(ts)) && forall u :: u in ts ==> u.id != t.id
    ensures NoDuplicates(Ids(ts + [t]))
  {
    forall i | 0 <= i < |ts| ensures Ids(ts + [t])[i] != t.id {
      assert ts[i] in ts;
    }
  }

  // ----- the preview shown before anything is deleted

  method BuildRollbackSummary(r: Roster, done: set<string>)
    returns (channels: seq<string>, roles: seq<string>, emoji: seq<string>)
    ensures channels == Restrict(r.channels, r.serverChannels - done)
    ensures roles == Restrict(r.roles, r.serverRoles - done)
    ensures emoji == Restrict(r.emoji, ToSet(r.emoji) - done)
  {
    channels := ListToDelete(r.channels, done, r.serverChannels);
    roles := ListToDelete(r.roles, done, r.serverRoles);
    emoji := ListToDelete(r.emoji, done, ToSet(r.emoji));
  }

  method ListToDelete(ids: seq<string>, done: set<string>, listed: set<string>) returns (r: seq<string>)
    ensures r == Restrict(ids, listed - done)
  {
    r := [];
    for i := 0 to |ids|
      invariant r == Restrict(ids[..i], listed - done)
    {
      assert ids[..i + 1] == ids[..i] + [ids[i]];
      RestrictAppend(ids[..i], [ids[i]], listed - done);
      if ids[i] in done || ids[i] !in listed {
        continue;
      }
      r := r + [ids[i]];
    }
    assert ids[..|ids|] == ids;
  }

  /** The recorded channels attempted are exactly the ones shown. */
  lemma ChannelPreviewIsAttempted(r: Roster, done: set<string>, id: string)
    ensures Task(Mapped, id) in ChannelTasks(r, done) <==> id in Restrict(r.channels, r.serverChannels - done)
  {
  }

  // ----- counters and ids

  /** How many of the recorded deletions are of one kind. */
  function Count(log: seq<Task>, k: Kind): nat {
    if log == [] then 0
    else Count(log[..|log| - 1], k) + (if log[|log| - 1].kind == k then 1 else 0)
  }

  /** Progress with the deletions it stands for, in the order they were recorded. */
  datatype Ledger = Ledger(progress: Progress, log: seq<Task>)

  /** No id was recorded twice, the id set is the recorded ids, each counter counts its kind. */
  ghost predicate Agrees(l: Ledger) {
    && NoDuplicates(Ids(l.log))
    && l.progress.ids == ToSet(Ids(l.log))
    && l.progress.channels == Count(l.log, Mapped)
    && l.progress.untracked == Count(l.log, Suspect)
    && l.progress.roles == Count(l.log, Role)
    && l.progress.emoji == Count(l.log, Emoji)
  }

  lemma {:induction false} CountsAddUp(log: seq<Task>)
    ensures Count(log, Mapped) + Count(log, Suspect) + Count(log, Role) + Count(log, Emoji) == |log|
  {
    if log != [] {
      CountsAddUp(log[..|log| - 1]);
      var k := log[|log| - 1].kind;
      assert k == Mapped || k == Suspect || k == Role || k == Emoji;
    }
  }

  /** The four counters together are the number of rolled back ids. */
  lemma CountersAgree(l: Ledger)
    requires Agrees(l)
    ensures l.progress.channels + l.progress.untracked + l.progress.roles + l.progress.emoji == |l.progress.ids|
  {
    CountsAddUp(l.log);
    NoDuplicatesLength(Ids(l.log));
  }

  function SettleLedger(l: Ledger, t: Task, o: Outcome): Ledger {
    Ledger(Settle(l.progress, t, o), if o.Deleted? then l.log + [t] else l.log)
  }

  lemma SettleAgrees(l: Ledger, t: Task, o: Outcome)
    requires Agrees(l) && t.id !in l.progress.ids
    ensures Agrees(SettleLedger(l, t, o))
    ensures l.progress.ids <= SettleLedger(l, t, o).progress.ids <= l.progress.ids + {t.id}
  {
    if o.Deleted? {
      var log := l.log + [t];
      assert log[..|log| - 1] == l.log;
      forall u | u in l.log ensures u.id != t.id {
        var i :| 0 <= i < |l.log| && l.log[i] == u;
        assert Ids(l.log)[i] == u.id;
      }
      ExtendIds(l.log, t);
      assert Ids(log) == Ids(l.log) + [t.id];
    }
  }

  // ----- all interleavings, failures, cancellations and crashes

  datatype Stage = Idle | Channels | Serial(queue: seq<Task>)

  /** The queue of the serial part. */
  function SerialQueue(r: Roster): seq<Task> {
    Tasks(Role, r.roles) + Tasks(Emoji, r.emoji)
  }

  /** `sent` lists the ids of all delete calls ever made; `attempted` are the current run's. `began`
      and `serialFrom` are the ids rolled back when the run and its serial part began. */
  datatype System = System(
    memory: Ledger,
    disk: Ledger,
    stage: Stage,
    roster: Roster,
    began: set<string>,
    serialFrom: set<string>,
    pending: set<Task>,
    running: set<Task>,
    attempted: set<Task>,
    sent: seq<string>,
    cancelled: bool
  )

  datatype Action =
    | Begin(roster: Roster)
    | Start(task: Task)
    | Skip(task: Task)
    | Finish(task: Task, outcome: Outcome, saved: bool)
    | ChannelsDone
    | Turn
    | Cancel
    | End(saved: bool)
    | Interrupt
    | Crash

  predicate Enabled(limit: nat, s: System, a: Action) {
    match a
    case Begin(_) => s.stage.Idle?
    case Start(t) => s.stage.Channels? && t in s.pending && |s.running| < limit && !s.cancelled
    case Skip(t) => s.stage.Channels? && t in s.pending && s.cancelled
    case Finish(t, _, _) => t in s.running
    case ChannelsDone => s.stage.Channels? && s.pending == {} == s.running
    case Turn => s.stage.Serial? && s.stage.queue != [] && s.running == {} && !s.cancelled
    case Cancel => true
    case End(_) => s.stage.Serial? && s.running == {} && (s.stage.queue == [] || s.cancelled)
    case Interrupt => true
    case Crash => true
  }

  function Apply(limit: nat, s: System, a: Action): System
    requires Enabled(limit, s, a)
  {
    match a
    case Begin(r) =>
      s.(stage := Channels, roster := r, began := s.memory.progress.ids, cancelled := false, attempted := {},
        pending := ChannelTasks(r, s.memory.progress.ids), running := {})
    case Start(t) =>
      s.(pending := s.pending - {t}, running := s.running + {t}, attempted := s.attempted + {t}, sent := s.sent + [t.id])
    case Skip(t) => s.(pending := s.pending - {t})
    case Finish(t, o, saved) =>
      var memory := SettleLedger(s.memory, t, o);
      var q := s.(memory := memory, running := s.running - {t}, disk := if saved then memory else s.disk);
      // a failed save ends the serial part; the gathered tasks swallow it
      if !saved && s.stage.Serial? then q.(stage := Idle) else q
    case ChannelsDone => s.(stage := Serial(SerialQueue(s.roster)), serialFrom := s.memory.progress.ids)
    case Turn =>
      var t, rest := s.stage.queue[0], s.stage.queue[1..];
      if t.id in s.memory.progress.ids then s.(stage := Serial(rest))
      else s.(stage := Serial(rest), running := {t}, attempted := s.attempted + {t}, sent := s.sent + [t.id])
    case Cancel => s.(cancelled := true)
    case End(saved) => s.(stage := Idle, disk := if saved then s.memory else s.disk)
    case Interrupt => s.(stage := Idle, pending := {}, running := {})
    case Crash => s.(stage := Idle, pending := {}, running := {}, memory := s.disk)
  }

  ghost predicate Reaches(limit: nat, s: System, actions: seq<Action>, t: System)
    decreases |actions|
  {
    if actions == [] then s == t
    else Enabled(limit, s, actions[0]) && Reaches(limit, Apply(limit, s, actions[0]), actions[1..], t)
  }

  function Initial(): System {
    var nothing := Ledger(Progress(0, 0, 0, 0, {}, []), []);
    System(nothing, nothing, Idle, Roster([], [], [], [], {}, {}), {}, {}, {}, {}, {}, [], false)
  }

  predicate HasFailure(p: Progress, t: Task) {
    exists f :: f in p.failures && f.entity == Entity(t.kind) && f.id == t.id
  }

  /** Open work concerns ids that are not rolled back, each once. */
  ghost predicate OpenWorkIsNew(open: set<Task>, ids: set<string>) {
    && (forall t :: t in open ==> t.id !in ids)
    && (forall t, u :: t in open && u in open && t.id == u.id ==> t == u)
  }

  predicate WithinBound(limit: nat, stage: Stage, n: nat) {
    n <= (if stage.Channels? then limit else if stage.Idle? then 0 else 1)
  }

  /** While channels are deleted: what is open and what was attempted make up the task list, and
      every task that answered left its trace. */
  ghost predicate OnTrack(
    targets: set<Task>, pending: set<Task>, running: set<Task>, attempted: set<Task>, cancelled: bool, p: Progress)
  {
    && attempted <= targets
    && (!cancelled ==> pending + attempted == targets)
    && (forall t :: t in attempted && t !in running ==> t.id in p.ids || HasFailure(p, t))
  }

  ghost predicate ChannelsOnTrack(s: System) {
    s.stage.Channels? ==>
      && s.pending <= ChannelTasks(s.roster, s.began)
      && OnTrack(ChannelTasks(s.roster, s.began), s.pending, s.running, s.attempted, s.cancelled, s.memory.progress)
  }

  predicate IsSerial(t: Task) {
    t.kind.Role? || t.kind.Emoji?
  }

  /** Roles come before emoji. */
  ghost predicate RolesFirst(queue: seq<Task>) {
    && (forall k :: 0 <= k < |queue| ==> IsSerial(queue[k]))
    && (forall j, k :: 0 <= j < k < |queue| && queue[j].kind.Emoji? ==> queue[k].kind.Emoji?)
  }

  /** After `n` turns of the serial part: which tasks were attempted, and why the others were not. */
  ghost predicate TurnsTaken(queue: seq<Task>, n: nat, from: set<string>, attempted: set<Task>, log: seq<Task>)
    requires n <= |queue|
  {
    && (forall t :: t in attempted && IsSerial(t) ==> t in queue[..n] && t.id !in from)
    && (forall t :: t in queue[..n] ==>
          t in attempted || t.id in from || (t.kind.Emoji? && Task(Role, t.id) in log))
    && (forall t :: t in attempted && t.kind.Emoji? ==> Task(Role, t.id) !in log)
  }

  /** Every id rolled back in the serial part was deleted by one of its tasks. */
  ghost predicate DeletedSince(from: set<string>, attempted: set<Task>, l: Ledger) {
    && from <= l.progress.ids
    && (forall id :: id in l.progress.ids && id !in from ==> exists u :: u in attempted && IsSerial(u) && u.id == id && u in l.log)
    && (forall u :: u in l.log ==> u.id in l.progress.ids)
  }

  ghost predicate Traced(attempted: set<Task>, running: set<Task>, p: Progress) {
    forall t :: t in attempted && t !in running ==> t.id in p.ids || HasFailure(p, t)
  }

  /** The one open call of the serial part is the one of the last turn. */
  ghost predicate LastTurn(queue: seq<Task>, n: nat, attempted: set<Task>, running: set<Task>)
    requires n <= |queue|
  {
    forall t :: t in running ==> n > 0 && t == queue[n - 1] && t in attempted
  }

  ghost predicate SerialTrack(queue: seq<Task>, n: nat, from: set<string>, attempted: set<Task>, running: set<Task>, l: Ledger)
    requires n <= |queue|
  {
    && TurnsTaken(queue, n, from, attempted, l.log)
    && DeletedSince(from, attempted, l)
    && LastTurn(queue, n, attempted, running)
    && Traced(attempted, running, l.progress)
  }

  ghost predicate SerialOnTrack(s: System) {
    s.stage.Serial? ==>
      var queue := SerialQueue(s.roster);
      var n := |queue| - |s.stage.queue|;
      n >= 0 && s.stage.queue == queue[n..] && SerialTrack(queue, n, s.serialFrom, s.attempted, s.running, s.memory)
  }

  /** `ids` are those of the start of the run and ids of some of the tasks. */
  ghost predicate From(began: set<string>, tasks: set<Task>, ids: set<string>) {
    && began <= ids
    && forall id :: id in ids ==> id in began || exists u :: u in tasks && u.id == id
  }

  ghost predicate SourcesKnown(s: System) {
    && (s.stage.Channels? ==> s.running <= s.attempted && From(s.began, s.attempted, s.memory.progress.ids))
    && (s.stage.Serial? ==> From(s.began, ChannelTasks(s.roster, s.began), s.serialFrom))
  }

  /** The books in memory and on disk are each in order, and memory is never behind the disk. */
  ghost predicate Books(memory: Ledger, disk: Ledger) {
    && Agrees(memory) && Agrees(disk)
    && disk.progress.ids <= memory.progress.ids
  }

  ghost predicate OpenWork(limit: nat, stage: Stage, pending: set<Task>, running: set<Task>, ids: set<string>) {
    && OpenWorkIsNew(pending + running, ids)
    && pending !! running
    && (!stage.Channels? ==> pending == {})
    && WithinBound(limit, stage, |running|)
  }

  ghost predicate Work(limit: nat, s: System) {
    OpenWork(limit, s.stage, s.pending, s.running, s.memory.progress.ids)
  }

  ghost predicate Inv(limit: nat, s: System) {
    Books(s.memory, s.disk) && Work(limit, s) && ChannelsOnTrack(s) && SerialOnTrack(s) && SourcesKnown(s)
  }

  lemma FinishOnTrack(
    targets: set<Task>, pending: set<Task>, running: set<Task>, attempted: set<Task>, cancelled: bool,
    p: Progress, t: Task, o: Outcome)
    requires OnTrack(targets, pending, running, attempted, cancelled, p)
    ensures OnTrack(targets, pending, running - {t}, attempted, cancelled, Settle(p, t, o))
  {
    var q := Settle(p, t, o);
    forall u | u in attempted && u !in running - {t} ensures u.id in q.ids || HasFailure(q, u) {
      if u != t {
        if f :| f in p.failures && f.entity == Entity(u.kind) && f.id == u.id {
          assert f in q.failures;
        }
      } else if o.Refused? {
        assert Trouble(Entity(t.kind), t.id, o.error) in q.failures;
      }
    }
  }

  lemma StartOnTrack(
    targets: set<Task>, pending: set<Task>, running: set<Task>, attempted: set<Task>, cancelled: bool,
    p: Progress, t: Task)
    requires OnTrack(targets, pending, running, attempted, cancelled, p) && t in pending && t in targets
    ensures OnTrack(targets, pending - {t}, running + {t}, attempted + {t}, cancelled, p)
  {
    assert pending - {t} + (attempted + {t}) == pending + attempted;
  }

  lemma StepKeepsTrack(limit: nat, s: System, a: Action)
    requires ChannelsOnTrack(s) && Enabled(limit, s, a)
    ensures ChannelsOnTrack(Apply(limit, s, a))
  {
    if s.stage.Channels? {
      var targets := ChannelTasks(s.roster, s.began);
      if a.Finish? {
        FinishOnTrack(targets, s.pending, s.running, s.attempted, s.cancelled, s.memory.progress, a.task, a.outcome);
      } else if a.Start? {
        StartOnTrack(targets, s.pending, s.running, s.attempted, s.cancelled, s.memory.progress, a.task);
      }
    }
  }

  lemma CloseTask(
    limit: nat, stage: Stage, pending: set<Task>, running: set<Task>, ids: set<string>, t: Task, after: set<string>)
    requires OpenWork(limit, stage, pending, running, ids) && t in running
    requires after <= ids + {t.id}
    ensures OpenWork(limit, stage, pending, running - {t}, after)
    ensures stage.Serial? ==> OpenWork(limit, Idle, pending, running - {t}, after)
  {
    assert t in pending + running;
    forall u | u in pending + (running - {t}) ensures u.id !in after {
      assert u in pending + running && u != t;
    }
    assert |running - {t}| == |running| - 1;
  }

  lemma SettleAddsOne(p: Progress, t: Task, o: Outcome)
    ensures Settle(p, t, o).ids <= p.ids + {t.id}
  {
  }

  lemma FinishKeepsWork(limit: nat, s: System, t: Task, o: Outcome, saved: bool)
    requires Work(limit, s) && t in s.running
    ensures Work(limit, Apply(limit, s, Finish(t, o, saved)))
  {
    SettleAddsOne(s.memory.progress, t, o);
    var after := Settle(s.memory.progress, t, o).ids;
    CloseTask(limit, s.stage, s.pending, s.running, s.memory.progress.ids, t, after);
    var s' := Apply(limit, s, Finish(t, o, saved));
    assert s'.memory.progress.ids == after;
    assert s'.stage == s.stage || (s'.stage == Idle && s.stage.Serial?);
    assert OpenWork(limit, s'.stage, s.pending, s.running - {t}, after);
  }

  lemma OpenTask(limit: nat, stage: Stage, pending: set<Task>, running: set<Task>, ids: set<string>, t: Task)
    requires OpenWork(limit, stage, pending, running, ids) && t in pending && |running| < limit
    ensures OpenWork(limit, stage, pending - {t}, running + {t}, ids)
  {
    assert pending - {t} + (running + {t}) == pending + running;
  }

  lemma StartKeepsWork(limit: nat, s: System, t: Task)
    requires Work(limit, s) && Enabled(limit, s, Start(t))
    ensures Work(limit, Apply(limit, s, Start(t)))
  {
    OpenTask(limit, s.stage, s.pending, s.running, s.memory.progress.ids, t);
  }

  lemma BeginKeepsWork(limit: nat, s: System, r: Roster)
    requires Work(limit, s) && s.stage.Idle?
    ensures Work(limit, Apply(limit, s, Begin(r)))
  {
    var s' := Apply(limit, s, Begin(r));
    assert s'.pending + s'.running == ChannelTasks(r, s.memory.progress.ids);
  }

  lemma TurnKeepsWork(limit: nat, s: System)
    requires Work(limit, s) && Enabled(limit, s, Turn)
    ensures Work(limit, Apply(limit, s, Turn))
  {
    var s' := Apply(limit, s, Turn);
    assert s'.pending + s'.running == s'.running;
  }

  lemma StopKeepsWork(limit: nat, s: System, a: Action)
    requires Work(limit, s) && Enabled(limit, s, a) && s.disk.progress.ids <= s.memory.progress.ids
    requires a.Skip? || a.ChannelsDone? || a.Cancel? || a.End? || a.Interrupt? || a.Crash?
    ensures Work(limit, Apply(limit, s, a))
  {
    var s' := Apply(limit, s, a);
    assert s'.pending + s'.running <= s.pending + s.running;
    assert s'.memory.progress.ids <= s.memory.progress.ids;
  }

  lemma StepKeepsWork(limit: nat, s: System, a: Action)
    requires Work(limit, s) && Enabled(limit, s, a) && s.disk.progress.ids <= s.memory.progress.ids
    ensures Work(limit, Apply(limit, s, a))
  {
    match a
    case Begin(r) => BeginKeepsWork(limit, s, r);
    case Start(t) => StartKeepsWork(limit, s, t);
    case Finish(t, o, saved) => FinishKeepsWork(limit, s, t, o, saved);
    case Turn => TurnKeepsWork(limit, s);
    case Skip(_) => StopKeepsWork(limit, s, a);
    case ChannelsDone => StopKeepsWork(limit, s, a);
    case Cancel => StopKeepsWork(limit, s, a);
    case End(_) => StopKeepsWork(limit, s, a);
    case Interrupt => StopKeepsWork(limit, s, a);
    case Crash => StopKeepsWork(limit, s, a);
  }

  lemma StepKeepsBooks(limit: nat, s: System, a: Action)
    requires Books(s.memory, s.disk) && Enabled(limit, s, a)
    requires a.Finish? ==> a.task.id !in s.memory.progress.ids
    ensures Books(Apply(limit, s, a).memory, Apply(limit, s, a).disk)
    ensures s.disk.progress.ids <= Apply(limit, s, a).disk.progress.ids
  {
    if a.Finish? {
      SettleAgrees(s.memory, a.task, a.outcome);
    }
  }

  lemma QueueRolesFirst(r: Roster)
    ensures RolesFirst(SerialQueue(r))
    ensures forall t :: t in SerialQueue(r) <==>
              (t.kind.Role? && t.id in r.roles) || (t.kind.Emoji? && t.id in r.emoji)
  {
    var roles, emoji := Tasks(Role, r.roles), Tasks(Emoji, r.emoji);
    forall t ensures t in roles <==> t.kind.Role? && t.id in r.roles {
      if t.kind.Role? && t.id in r.roles {
        var i :| 0 <= i < |r.roles| && r.roles[i] == t.id;
        assert roles[i] == t;
      }
    }
    forall t ensures t in emoji <==> t.kind.Emoji? && t.id in r.emoji {
      if t.kind.Emoji? && t.id in r.emoji {
        var i :| 0 <= i < |r.emoji| && r.emoji[i] == t.id;
        assert emoji[i] == t;
      }
    }
  }

  lemma TraceFinish(attempted: set<Task>, running: set<Task>, p: Progress, t: Task, o: Outcome)
    requires Traced(attempted, running, p)
    ensures Traced(attempted, running - {t}, Settle(p, t, o))
  {
    FinishOnTrack(attempted, {}, running, attempted, true, p, t, o);
  }

  lemma SerialFinish(queue: seq<Task>, n: nat, from: set<string>, attempted: set<Task>, running: set<Task>, l: Ledger, t: Task, o: Outcome)
    requires n <= |queue| && RolesFirst(queue) && SerialTrack(queue, n, from, attempted, running, l) && t in running
    ensures SerialTrack(queue, n, from, attempted, running - {t}, SettleLedger(l, t, o))
  {
    TraceFinish(attempted, running, l.progress, t, o);
    var m := SettleLedger(l, t, o);
    forall e | e in attempted && e.kind.Emoji? ensures Task(Role, e.id) !in m.log {
      var j :| 0 <= j < n && queue[j] == e;
      assert j < n - 1 ==> queue[n - 1].kind.Emoji?;
    }
    forall id | id in m.progress.ids && id !in from
      ensures exists u :: u in attempted && IsSerial(u) && u.id == id && u in m.log
    {
      if id in l.progress.ids {
        var u :| u in attempted && IsSerial(u) && u.id == id && u in l.log;
        assert u in m.log;
      } else {
        assert t in m.log;
      }
    }
  }

  lemma SerialSkip(queue: seq<Task>, n: nat, from: set<string>, attempted: set<Task>, l: Ledger)
    requires n < |queue| && RolesFirst(queue) && SerialTrack(queue, n, from, attempted, {}, l)
    requires queue[n].id in l.progress.ids
    ensures SerialTrack(queue, n + 1, from, attempted, {}, l)
  {
    var t := queue[n];
    assert queue[..n + 1] == queue[..n] + [t];
    if t.id !in from {
      var u :| u in attempted && IsSerial(u) && u.id == t.id && u in l.log;
      var j :| 0 <= j < n && queue[j] == u;
      assert u.kind.Emoji? ==> t.kind.Emoji?;
      assert u == t || u == Task(Role, t.id);
    }
  }

  lemma SerialSend(queue: seq<Task>, n: nat, from: set<string>, attempted: set<Task>, l: Ledger)
    requires n < |queue| && RolesFirst(queue) && SerialTrack(queue, n, from, attempted, {}, l)
    requires queue[n].id !in l.progress.ids
    ensures SerialTrack(queue, n + 1, from, attempted + {queue[n]}, {queue[n]}, l)
  {
    var t := queue[n];
    assert queue[..n + 1] == queue[..n] + [t];
    forall id | id in l.progress.ids && id !in from
      ensures exists u :: u in attempted + {t} && IsSerial(u) && u.id == id && u in l.log
    {
      var u :| u in attempted && IsSerial(u) && u.id == id && u in l.log;
      assert u in attempted + {t};
    }
  }

  lemma SerialStart(queue: seq<Task>, attempted: set<Task>, l: Ledger)
    requires forall t :: t in attempted ==> !IsSerial(t)
    requires Traced(attempted, {}, l.progress) && (forall u :: u in l.log ==> u.id in l.progress.ids)
    ensures SerialTrack(queue, 0, l.progress.ids, attempted, {}, l)
  {
  }

  lemma LoggedIds(l: Ledger)
    requires Agrees(l)
    ensures forall u :: u in l.log ==> u.id in l.progress.ids
  {
    forall u | u in l.log ensures u.id in l.progress.ids {
      var i :| 0 <= i < |l.log| && l.log[i] == u;
      assert Ids(l.log)[i] == u.id;
    }
  }

  lemma TurnKeepsSerial(limit: nat, s: System)
    requires SerialOnTrack(s) && Enabled(limit, s, Turn)
    ensures SerialOnTrack(Apply(limit, s, Turn))
  {
    var queue := SerialQueue(s.roster);
    var n := |queue| - |s.stage.queue|;
    QueueRolesFirst(s.roster);
    assert s.stage.queue[0] == queue[n] && s.stage.queue[1..] == queue[n + 1..];
    if queue[n].id in s.memory.progress.ids {
      SerialSkip(queue, n, s.serialFrom, s.attempted, s.memory);
    } else {
      SerialSend(queue, n, s.serialFrom, s.attempted, s.memory);
    }
  }

  lemma ChannelTasksAreNotSerial(r: Roster, done: set<string>)
    ensures forall t :: t in ChannelTasks(r, done) ==> !IsSerial(t)
  {
  }

  lemma ChannelsDoneKeepsSerial(limit: nat, s: System)
    requires ChannelsOnTrack(s) && Agrees(s.memory) && Enabled(limit, s, ChannelsDone)
    ensures SerialOnTrack(Apply(limit, s, ChannelsDone))
  {
    var queue := SerialQueue(s.roster);
    LoggedIds(s.memory);
    ChannelTasksAreNotSerial(s.roster, s.began);
    assert forall t :: t in s.attempted ==> !IsSerial(t);
    assert queue[0..] == queue;
    SerialStart(queue, s.attempted, s.memory);
  }

  lemma FinishKeepsSerial(limit: nat, s: System, t: Task, o: Outcome, saved: bool)
    requires SerialOnTrack(s) && t in s.running
    ensures SerialOnTrack(Apply(limit, s, Finish(t, o, saved)))
  {
    if s.stage.Serial? {
      var queue := SerialQueue(s.roster);
      QueueRolesFirst(s.roster);
      SerialFinish(queue, |queue| - |s.stage.queue|, s.serialFrom, s.attempted, s.running, s.memory, t, o);
    }
  }

  lemma OtherKeepsSerial(limit: nat, s: System, a: Action)
    requires SerialOnTrack(s) && Enabled(limit, s, a)
    requires !a.Turn? && !a.ChannelsDone? && !a.Finish?
    ensures SerialOnTrack(Apply(limit, s, a))
  {
    var t := Apply(limit, s, a);
    assert t.stage.Serial? ==> s.stage.Serial? && t.stage == s.stage && t.roster == s.roster && t.memory == s.memory
                               && t.serialFrom == s.serialFrom && t.attempted == s.attempted && t.running == s.running;
  }

  lemma StepKeepsSerial(limit: nat, s: System, a: Action)
    requires SerialOnTrack(s) && ChannelsOnTrack(s) && Agrees(s.memory) && Enabled(limit, s, a)
    ensures SerialOnTrack(Apply(limit, s, a))
  {
    if a.Turn? {
      TurnKeepsSerial(limit, s);
    } else if a.ChannelsDone? {
      ChannelsDoneKeepsSerial(limit, s);
    } else if a.Finish? {
      FinishKeepsSerial(limit, s, a.task, a.outcome, a.saved);
    } else {
      OtherKeepsSerial(limit, s, a);
    }
  }

  lemma FromGrows(began: set<string>, tasks: set<Task>, ids: set<string>, more: set<Task>, after: set<string>)
    requires From(began, tasks, ids) && tasks <= more && ids <= after
    requires forall id :: id in after && id !in ids ==> exists u :: u in more && u.id == id
    ensures From(began, more, after)
  {
    forall id | id in after && id !in began ensures exists u :: u in more && u.id == id {
      if id in ids {
        var u :| u in tasks && u.id == id;
        assert u in more;
      }
    }
  }

  lemma StepKeepsSources(limit: nat, s: System, a: Action)
    requires SourcesKnown(s) && ChannelsOnTrack(s) && Enabled(limit, s, a)
    ensures SourcesKnown(Apply(limit, s, a))
  {
    var t := Apply(limit, s, a);
    if s.stage.Channels? {
      if a.Finish? {
        SettleAddsOne(s.memory.progress, a.task, a.outcome);
        assert a.task in s.attempted;
        FromGrows(s.began, s.attempted, s.memory.progress.ids, s.attempted, t.memory.progress.ids);
      } else if a.Start? {
        FromGrows(s.began, s.attempted, s.memory.progress.ids, t.attempted, t.memory.progress.ids);
      } else if a.ChannelsDone? {
        FromGrows(s.began, s.attempted, s.memory.progress.ids, ChannelTasks(s.roster, s.began), s.memory.progress.ids);
      }
    }
  }

  lemma StepKeepsInvariant(limit: nat, s: System, a: Action)
    requires Inv(limit, s) && Enabled(limit, s, a)
    ensures Inv(limit, Apply(limit, s, a))
    ensures s.disk.progress.ids <= Apply(limit, s, a).disk.progress.ids
  {
    if a.Finish? {
      assert a.task in s.pending + s.running;
    }
    StepKeepsBooks(limit, s, a);
    StepKeepsWork(limit, s, a);
    StepKeepsTrack(limit, s, a);
    StepKeepsSerial(limit, s, a);
    StepKeepsSources(limit, s, a);
  }

  /** The delete call a step sends. */
  function Sends(s: System, a: Action): seq<string> {
    if a.Start? then [a.task.id]
    else if a.Turn? && s.stage.Serial? && s.stage.queue != [] && s.stage.queue[0].id !in s.memory.progress.ids
    then [s.stage.queue[0].id]
    else []
  }

  lemma StepLogsSends(limit: nat, s: System, a: Action)
    requires Enabled(limit, s, a)
    ensures Apply(limit, s, a).sent == s.sent + Sends(s, a)
  {
  }

  /** A step never sends an id that is rolled back already. */
  lemma StepSendsNew(limit: nat, s: System, a: Action)
    requires Work(limit, s) && Enabled(limit, s, a)
    ensures forall id :: id in Sends(s, a) ==> id !in s.memory.progress.ids
  {
    if a.Start? {
      assert a.task in s.pending + s.running;
    }
  }

  lemma InitialInvariant(limit: nat)
    ensures Inv(limit, Initial())
  {
  }

  lemma {:induction false} RunKeepsInvariant(limit: nat, s: System, actions: seq<Action>, t: System)
    requires Inv(limit, s) && Reaches(limit, s, actions, t)
    ensures Inv(limit, t)
    decreases |actions|
  {
    if actions != [] {
      StepKeepsInvariant(limit, s, actions[0]);
      RunKeepsInvariant(limit, Apply(limit, s, actions[0]), actions[1..], t);
    }
  }

  /** Main result: over any runs and interleavings, with failures, cancellations and crashes, the
      counters in memory and on disk add up to the ids rolled back, no id is recorded as deleted
      twice, and never more calls are in flight than allowed. */
  lemma EveryRunBalances(limit: nat, actions: seq<Action>, t: System)
    requires Reaches(limit, Initial(), actions, t)
    ensures forall p :: p in [t.memory.progress, t.disk.progress] ==>
              p.channels + p.untracked + p.roles + p.emoji == |p.ids|
    ensures NoDuplicates(Ids(t.memory.log)) && NoDuplicates(Ids(t.disk.log))
    ensures t.stage.Channels? ==> |t.running| <= limit
    ensures !t.stage.Channels? ==> |t.running| <= 1
  {
    InitialInvariant(limit);
    RunKeepsInvariant(limit, Initial(), actions, t);
    CountersAgree(t.memory);
    CountersAgree(t.disk);
  }

  /** When the channel part ends without a cancellation, the recorded channels attempted are those
      of the preview, the other channels attempted are the unrecorded suspects the user chose, and
      each is rolled back or on the failure list. */
  lemma AttemptedAsShown(limit: nat, actions: seq<Action>, t: System, id: string)
    requires Reaches(limit, Initial(), actions, t)
    requires Enabled(limit, t, ChannelsDone) && !t.cancelled
    ensures Task(Mapped, id) in t.attempted <==>
              id in Restrict(t.roster.channels, t.roster.serverChannels - t.began)
    ensures Task(Suspect, id) in t.attempted <==>
              SuspectChannel(id, true) in t.roster.suspects && id !in t.roster.channels && id !in t.began
    ensures forall kind :: Task(kind, id) in t.attempted ==>
              id in t.memory.progress.ids || HasFailure(t.memory.progress, Task(kind, id))
  {
    InitialInvariant(limit);
    RunKeepsInvariant(limit, Initial(), actions, t);
    assert t.pending + t.attempted == t.attempted;
  }

  /** The ids of one kind among the tasks. */
  function IdsOf(tasks: set<Task>, kind: Kind): (r: set<string>)
    ensures forall id :: id in r <==> Task(kind, id) in tasks
  {
    set t | t in tasks && t.kind == kind :: t.id
  }

  /** When a run ends without a cancellation or a failed save, the roles and emoji attempted are the
      recorded ones not rolled back when their turn first came, each now rolled back or on the failure
      list: the roles not rolled back when the serial part began, and the emoji that besides were not
      deleted under the same id as a role. */
  lemma SerialAttempted(limit: nat, actions: seq<Action>, t: System, id: string)
    requires Reaches(limit, Initial(), actions, t)
    requires Enabled(limit, t, End(true)) && !t.cancelled
    ensures id in IdsOf(t.attempted, Role) <==> id in t.roster.roles && id !in t.serialFrom
    ensures id in IdsOf(t.attempted, Emoji) <==>
              id in t.roster.emoji && id !in t.serialFrom && Task(Role, id) !in t.memory.log
    ensures forall u :: u in t.attempted ==> u.id in t.memory.progress.ids || HasFailure(t.memory.progress, u)
    ensures t.began <= t.serialFrom
  {
    InitialInvariant(limit);
    RunKeepsInvariant(limit, Initial(), actions, t);
    var queue := SerialQueue(t.roster);
    QueueRolesFirst(t.roster);
    assert queue[..|queue|] == queue;
  }

  /** The roles shown against the roles attempted: they agree exactly when the server lists every role
      not rolled back before, but for roles whose id the run deleted as a channel. */
  lemma RolePreviewAgreesExactly(limit: nat, actions: seq<Action>, t: System)
    requires Reaches(limit, Initial(), actions, t)
    requires Enabled(limit, t, End(true)) && !t.cancelled
    ensures ToSet(Restrict(t.roster.roles, t.roster.serverRoles - t.began)) == IdsOf(t.attempted, Role)
            <==> (forall id :: id in t.roster.roles && id !in t.began ==>
                    (id in t.roster.serverRoles <==> id !in t.serialFrom))
  {
    var shown, tried := ToSet(Restrict(t.roster.roles, t.roster.serverRoles - t.began)), IdsOf(t.attempted, Role);
    forall id
      ensures id in shown <==> id in t.roster.roles && id in t.roster.serverRoles && id !in t.began
      ensures id in tried <==> id in t.roster.roles && id !in t.serialFrom
      ensures t.began <= t.serialFrom
    {
      SerialAttempted(limit, actions, t, id);
    }
    if shown == tried {
      forall id | id in t.roster.roles && id !in t.began ensures id in t.roster.serverRoles <==> id !in t.serialFrom {
        assert id in shown <==> id in tried;
      }
    }
  }

  /** The same for roles whose ids are not also ids of channels to delete: the preview is what is
      attempted exactly when the server still lists every role not rolled back before. */
  lemma RolePreviewOfDistinctIds(limit: nat, actions: seq<Action>, t: System)
    requires Reaches(limit, Initial(), actions, t)
    requires Enabled(limit, t, End(true)) && !t.cancelled
    requires forall u :: u in ChannelTasks(t.roster, t.began) ==> u.id !in t.roster.roles
    ensures ToSet(Restrict(t.roster.roles, t.roster.serverRoles - t.began)) == IdsOf(t.attempted, Role)
            <==> (forall id :: id in t.roster.roles && id !in t.began ==> id in t.roster.serverRoles)
  {
    RolePreviewAgreesExactly(limit, actions, t);
    InitialInvariant(limit);
    RunKeepsInvariant(limit, Initial(), actions, t);
    assert forall id :: id in t.roster.roles && id !in t.began ==> id !in t.serialFrom;
  }

  /** All recorded emoji not rolled back are shown, and they are what is attempted exactly when the run
      did not delete one of their ids before, as a channel or a role. */
  lemma EmojiPreviewAgreesExactly(limit: nat, actions: seq<Action>, t: System)
    requires Reaches(limit, Initial(), actions, t)
    requires Enabled(limit, t, End(true)) && !t.cancelled
    ensures ToSet(Restrict(t.roster.emoji, ToSet(t.roster.emoji) - t.began)) == IdsOf(t.attempted, Emoji)
            <==> (forall id :: id in t.roster.emoji && id !in t.began ==>
                    id !in t.serialFrom && Task(Role, id) !in t.memory.log)
  {
    var shown, tried := ToSet(Restrict(t.roster.emoji, ToSet(t.roster.emoji) - t.began)), IdsOf(t.attempted, Emoji);
    forall id
      ensures id in shown <==> id in t.roster.emoji && id !in t.began
      ensures id in tried <==> id in t.roster.emoji && id !in t.serialFrom && Task(Role, id) !in t.memory.log
      ensures t.began <= t.serialFrom
    {
      SerialAttempted(limit, actions, t, id);
    }
    if shown == tried {
      forall id | id in t.roster.emoji && id !in t.began ensures id !in t.serialFrom && Task(Role, id) !in t.memory.log {
        assert id in shown <==> id in tried;
      }
    }
  }

  /** A role deleted by hand: a run shows nothing to delete, and sends the role's deletion. */
  lemma RoleDeletedByHand(limit: nat) returns (t: System)
    ensures var r := Roster([], ["r"], [], [], {}, {});
            && Restrict(r.roles, r.serverRoles - Initial().memory.progress.ids) == []
            && Reaches(limit, Initial(), [Begin(r), ChannelsDone, Turn], t)
            && t.sent == ["r"] && Task(Role, "r") in t.running
  {
    var r := Roster([], ["r"], [], [], {}, {});
    var actions := [Begin(r), ChannelsDone, Turn];
    var s1 := Apply(limit, Initial(), Begin(r));
    assert s1.pending == {};
    var s2 := Apply(limit, s1, ChannelsDone);
    assert SerialQueue(r) == [Task(Role, "r")];
    t := Apply(limit, s2, Turn);
    assert actions[1..] == [ChannelsDone, Turn] && actions[1..][1..] == [Turn] && actions[1..][1..][1..] == [];
    assert Reaches(limit, s2, [Turn], t);
    assert Reaches(limit, s1, [ChannelsDone, Turn], t);
  }

  /** A step never sends what is durably rolled back, and keeps it durable. */
  lemma StepSends(limit: nat, s: System, a: Action)
    requires Inv(limit, s) && Enabled(limit, s, a)
    ensures Inv(limit, Apply(limit, s, a)) && Apply(limit, s, a).sent == s.sent + Sends(s, a)
    ensures forall id :: id in s.disk.progress.ids ==>
              id !in Sends(s, a) && id in Apply(limit, s, a).disk.progress.ids
  {
    StepLogsSends(limit, s, a);
    StepSendsNew(limit, s, a);
    StepKeepsInvariant(limit, s, a);
  }

  /** All delete calls of a run, in order. */
  ghost function AllSends(limit: nat, s: System, actions: seq<Action>, t: System): seq<string>
    requires Reaches(limit, s, actions, t)
    decreases |actions|
  {
    if actions == [] then []
    else Sends(s, actions[0]) + AllSends(limit, Apply(limit, s, actions[0]), actions[1..], t)
  }

  lemma {:induction false} RunLogsSends(limit: nat, s: System, actions: seq<Action>, t: System)
    requires Reaches(limit, s, actions, t)
    ensures t.sent == s.sent + AllSends(limit, s, actions, t)
    decreases |actions|
  {
    if actions != [] {
      StepLogsSends(limit, s, actions[0]);
      RunLogsSends(limit, Apply(limit, s, actions[0]), actions[1..], t);
    }
  }

  lemma {:induction false} RunSends(limit: nat, s: System, actions: seq<Action>, t: System, id: string)
    requires Inv(limit, s) && Reaches(limit, s, actions, t) && id in s.disk.progress.ids
    ensures id !in AllSends(limit, s, actions, t) && id in t.disk.progress.ids
    decreases |actions|
  {
    if actions != [] {
      StepSends(limit, s, actions[0]);
      RunSends(limit, Apply(limit, s, actions[0]), actions[1..], t, id);
    }
  }

  /** Once a deletion is durably recorded it stays recorded, and no later run sends it again. */
  lemma DurableIsNeverSentAgain(limit: nat, before: seq<Action>, s: System, actions: seq<Action>, t: System)
    requires Reaches(limit, Initial(), before, s) && Reaches(limit, s, actions, t)
    ensures s.disk.progress.ids <= t.disk.progress.ids
    ensures s.sent <= t.sent
    ensures forall id :: id in s.disk.progress.ids ==> id !in t.sent[|s.sent|..]
  {
    InitialInvariant(limit);
    RunKeepsInvariant(limit, Initial(), before, s);
    RunLogsSends(limit, s, actions, t);
    assert t.sent[|s.sent|..] == AllSends(limit, s, actions, t);
    forall id | id in s.disk.progress.ids ensures id !in t.sent[|s.sent|..] && id in t.disk.progress.ids {
      RunSends(limit, s, actions, t, id);
    }
  }

  // ----- what a run can send, from the choice it began with

  /** A recorded channel on the server, a recorded role or emoji, or an unrecorded suspect that the
      user chose; and not rolled back when the run began. */
  predicate Target(r: Roster, done: set<string>, id: string) {
    && id !in done
    && (|| (id in r.channels && id in r.serverChannels)
        || id in r.roles
        || id in r.emoji
        || (SuspectChannel(id, true) in r.suspects && id !in r.channels))
  }

  /** What a state of a run can still send are targets. */
  ghost predicate Aims(s: System, r: Roster, done: set<string>) {
    && s.roster == r
    && (!s.stage.Idle? ==> done <= s.memory.progress.ids)
    && (s.stage.Channels? ==> forall t :: t in s.pending ==> Target(r, done, t.id))
    && (s.stage.Serial? ==> forall t :: t in s.stage.queue ==> t.id in r.roles || t.id in r.emoji)
  }

  lemma BeginAims(limit: nat, s: System, r: Roster)
    requires s.stage.Idle?
    ensures Aims(Apply(limit, s, Begin(r)), r, s.memory.progress.ids)
  {
  }

  lemma StepAims(limit: nat, s: System, a: Action, r: Roster, done: set<string>)
    requires Aims(s, r, done) && Enabled(limit, s, a) && !a.Begin?
    ensures Aims(Apply(limit, s, a), r, done)
    ensures forall id :: id in Sends(s, a) ==> Target(r, done, id)
  {
    if a.ChannelsDone? {
      QueueRolesFirst(r);
    }
  }

  ghost predicate OneRun(actions: seq<Action>) {
    forall i :: 0 <= i < |actions| ==> !actions[i].Begin?
  }

  lemma {:induction false} RunAims(limit: nat, s: System, actions: seq<Action>, t: System, r: Roster, done: set<string>)
    requires Aims(s, r, done) && OneRun(actions) && Reaches(limit, s, actions, t)
    ensures forall id :: id in AllSends(limit, s, actions, t) ==> Target(r, done, id)
    decreases |actions|
  {
    if actions != [] {
      StepAims(limit, s, actions[0], r, done);
      RunAims(limit, Apply(limit, s, actions[0]), actions[1..], t, r, done);
    }
  }

  /** Over any run, whatever fails, is cancelled or crashes: every id sent is one of its targets. */
  lemma OnlyTargetsAreSent(limit: nat, s: System, r: Roster, actions: seq<Action>, t: System)
    requires s.stage.Idle? && OneRun(actions)
    requires Reaches(limit, Apply(limit, s, Begin(r)), actions, t)
    ensures s.sent <= t.sent
    ensures forall id :: id in t.sent[|s.sent|..] ==> Target(r, s.memory.progress.ids, id)
  {
    var begun := Apply(limit, s, Begin(r));
    BeginAims(limit, s, r);
    RunAims(limit, begun, actions, t, r, s.memory.progress.ids);
    RunLogsSends(limit, begun, actions, t);
    assert t.sent[|s.sent|..] == AllSends(limit, begun, actions, t);
  }

  /** A deletion whose save failed is forgotten in a crash: the next run has its task again, while the
      deletions saved before stay. */
  lemma UnsavedDeletionComesBack(limit: nat, s: System, t: Task, r: Roster)
    requires t in s.running && t.kind.Mapped? && t.id !in s.disk.progress.ids
    requires t.id in r.channels && t.id in r.serverChannels
    ensures var crashed := Apply(limit, Apply(limit, s, Finish(t, Deleted, false)), Crash);
            && crashed.stage.Idle? && t.id !in crashed.memory.progress.ids
            && t in Apply(limit, crashed, Begin(r)).pending
            && crashed.memory.progress == s.disk.progress
  {
  }

  /** After a cancellation the run sends nothing more. */
  lemma {:induction false} CancelledRunIsQuiet(limit: nat, s: System, actions: seq<Action>, t: System)
    requires s.cancelled && OneRun(actions) && Reaches(limit, s, actions, t)
    ensures t.sent == s.sent
    decreases |actions|
  {
    if actions != [] {
      CancelledRunIsQuiet(limit, Apply(limit, s, actions[0]), actions[1..], t);
    }
  }
}
