/**
 `_run_phases` and the end of `run_migration`: phases run in order, each is recorded before it
 starts, and a resume continues from the recorded one.
 */
module Phases {
  import opened Common

  datatype Phase =
    | Export | Validate | Connect | Server | Roles | Categories | Channels
    | Emoji | Avatars | Messages | Reactions | Pins | Report
    | ValidateMigration

  const PHASE_ORDER: seq<Phase> := [
    Export, Validate, Connect, Server, Roles, Categories, Channels,
    Emoji, Avatars, Messages, Reactions, Pins, Report
  ]

  /** Export, validate and report are handled outside the loop. */
  const RUNNABLE: seq<Phase> := PHASE_ORDER[2..12]

  const SKIPPABLE: set<Phase> := {Export, Emoji, Avatars, Messages, Reactions}

  /** The place in `PHASE_ORDER`; what is not listed there comes after everything. */
  function Position(p: Phase): (n: nat)
    ensures n < |PHASE_ORDER| ==> PHASE_ORDER[n] == p
    ensures n >= |PHASE_ORDER| ==> p !in PHASE_ORDER
    ensures forall k :: 0 <= k < |PHASE_ORDER| && PHASE_ORDER[k] == p ==> n == k
  {
    match p
    case Export => 0
    case Validate => 1
    case Connect => 2
    case Server => 3
    case Roles => 4
    case Categories => 5
    case Channels => 6
    case Emoji => 7
    case Avatars => 8
    case Messages => 9
    case Reactions => 10
    case Pins => 11
    case Report => 12
    case ValidateMigration => 13
  }

  /** `implemented` are the phases with a function. */
  datatype Config = Config(resume: bool, skips: set<Phase>, implemented: set<Phase>, validateAfter: bool)

  /** The saved phase, with what was finished and what was skipped since the last fresh start. */
  datatype Document = Document(mark: Option<Phase>, finished: set<Phase>, skipped: set<Phase>)

  /** `started` lists the phases started by this process. */
  datatype Store = Store(memory: Document, disk: Document, started: seq<Phase>)

  /** What becomes of a phase once it starts. Interrupted is an `asyncio.CancelledError`; the
      process may also die in it, with or without a save of its own. */
  datatype Outcome = Completed | Failed | Interrupted | Died(saved: bool)

  /** What the loop meets at each phase: the cancel flag, and the outcome if the phase starts. */
  datatype Weather = Weather(cancelled: bool, outcome: Outcome)

  datatype Ending = Through | Cancelled | Swallowed(phase: Phase) | Raised | Dead

  function Save(s: Store): Store {
    s.(disk := s.memory)
  }

  predicate SkippedByConfig(c: Config, p: Phase) {
    p in SKIPPABLE && p in c.skips
  }

  predicate AlreadyPast(c: Config, mark: Option<Phase>, p: Phase) {
    c.resume && mark.Some? && Position(p) < Position(mark.value)
  }

  /** One phase that is neither skipped nor cancelled. */
  function Execute(s: Store, p: Phase, o: Outcome): (Store, Option<Ending>) {
    var started := s.(memory := s.memory.(mark := Some(p)), started := s.started + [p]);
    match o
    case Completed => (Save(started.(memory := started.memory.(finished := started.memory.finished + {p}))), None)
    case Failed => (Save(started), Some(Raised))
    case Interrupted => (Save(started), Some(Swallowed(p)))
    case Died(saved) => (if saved then Save(started) else started, Some(Dead))
  }

  function Skip(s: Store, p: Phase): Store {
    s.(memory := s.memory.(skipped := s.memory.skipped + {p}))
  }

  /** One turn of the loop; no ending means that it goes on. */
  function Turn(c: Config, s: Store, p: Phase, w: Weather): (Store, Option<Ending>) {
    if w.cancelled then (Save(s), Some(Cancelled))
    else if SkippedByConfig(c, p) then (Skip(s, p), None)
    else if AlreadyPast(c, s.memory.mark, p) then (s, None)
    else if p !in c.implemented then (Skip(s, p), None)
    else Execute(s, p, w.outcome)
  }

  function Loop(c: Config, s: Store, ws: seq<Weather>, k: nat): (Store, Ending)
    requires k <= |RUNNABLE| == |ws|
    decreases |RUNNABLE| - k
  {
    if k == |RUNNABLE| then (s, Through)
    else
      var (t, e) := Turn(c, s, RUNNABLE[k], ws[k]);
      if e.Some? then (t, e.value) else Loop(c, t, ws, k + 1)
  }

  /** The rest of `run_migration` after the loop returned; `cancelSet` is the flag at that time. */
  function Conclude(c: Config, s: Store, e: Ending, cancelSet: bool): Store {
    if e.Raised? || e.Dead? || cancelSet then s
    else Save(s.(memory := s.memory.(mark := Some(if c.validateAfter then ValidateMigration else Report))))
  }

  // ----- in place

  class Migration {
    var currentPhase: Option<Phase>
    var onDisk: Option<Phase>
    ghost var finished: set<Phase>
    ghost var skipped: set<Phase>
    ghost var diskFinished: set<Phase>
    ghost var diskSkipped: set<Phase>
    ghost var started: seq<Phase>

    ghost function Value(): Store
      reads this
    {
      Store(Document(currentPhase, finished, skipped), Document(onDisk, diskFinished, diskSkipped), started)
    }

    constructor ()
      ensures Value() == Store(Document(None, {}, {}), Document(None, {}, {}), [])
    {
      currentPhase, onDisk := None, None;
      finished, skipped, diskFinished, diskSkipped, started := {}, {}, {}, {}, [];
    }

    method SaveState()
      modifies this
      ensures Value() == Save(old(Value()))
    {
      onDisk := currentPhase;
      diskFinished, diskSkipped := finished, skipped;
    }

    method RunPhases(c: Config, ws: seq<Weather>) returns (ending: Ending)
      requires |ws| == |RUNNABLE|
      modifies this
      ensures (Value(), ending) == Loop(c, old(Value()), ws, 0)
    {
      for k := 0 to |RUNNABLE|
        invariant Loop(c, Value(), ws, k) == Loop(c, old(Value()), ws, 0)
      {
        var p := RUNNABLE[k];
        if ws[k].cancelled {
          SaveState();
          return Cancelled;
        }
        if p in SKIPPABLE && p in c.skips {
          skipped := skipped + {p};
          continue;
        }
        if c.resume && currentPhase.Some? && Position(p) < Position(currentPhase.value) {
          continue;
        }
        if p !in c.implemented {
          skipped := skipped + {p};
          continue;
        }
        currentPhase := Some(p);
        started := started + [p];
        match ws[k].outcome {
          case Failed =>
            SaveState();
            return Raised;
          case Interrupted =>
            SaveState();
            return Swallowed(p);
          case Died(saved) =>
            if saved {
              SaveState();
            }
            return Dead;
          case Completed =>
            finished := finished + {p};
            SaveState();
        }
      }
      ending := Through;
    }

    method RunMigration(c: Config, ws: seq<Weather>, cancelSet: bool) returns (ending: Ending)
      requires |ws| == |RUNNABLE|
      modifies this
      ensures var (s, e) := Loop(c, old(Value()), ws, 0); ending == e && Value() == Conclude(c, s, e, cancelSet)
      ensures !ending.Raised? && !ending.Dead? && !cancelSet ==>
                && currentPhase == Some(if c.validateAfter then ValidateMigration else Report)
                && onDisk == currentPhase && diskFinished == finished && diskSkipped == skipped
      ensures ending.Raised? || ending.Dead? || cancelSet ==> Value() == Loop(c, old(Value()), ws, 0).0
    {
      ending := RunPhases(c, ws);
      if ending.Raised? || ending.Dead? || cancelSet {
        return;
      }
      currentPhase := Some(Report);
      if c.validateAfter {
        currentPhase := Some(ValidateMigration);
      }
      SaveState();
    }
  }

  // ----- order

  predicate Dealt(d: Document, p: Phase) {
    p in d.finished || p in d.skipped
  }

  predicate DealtBefore(d: Document, n: nat) {
    forall p :: p in RUNNABLE && Position(p) < n ==> Dealt(d, p)
  }

  /** Every runnable phase before the recorded one was finished or skipped. */
  predicate InOrder(d: Document) {
    d.mark.Some? ==> DealtBefore(d, Position(d.mark.value))
  }

  ghost predicate Inv(s: Store) {
    InOrder(s.memory) && InOrder(s.disk)
  }

  lemma RunnablePosition(k: nat)
    requires k < |RUNNABLE|
    ensures Position(RUNNABLE[k]) == k + 2
  {
    assert PHASE_ORDER[k + 2] == RUNNABLE[k];
  }

  lemma NextPosition(d: Document, k: nat)
    requires k < |RUNNABLE| && DealtBefore(d, k + 2) && Dealt(d, RUNNABLE[k])
    ensures DealtBefore(d, k + 3)
  {
    forall p | p in RUNNABLE && Position(p) < k + 3 ensures Dealt(d, p) {
      if Position(p) == k + 2 {
        RunnablePosition(k);
      }
    }
  }

  lemma MarkKeepsOrder(d: Document, k: nat)
    requires k < |RUNNABLE| && DealtBefore(d, k + 2)
    ensures InOrder(d.(mark := Some(RUNNABLE[k])))
    ensures InOrder(d.(mark := Some(RUNNABLE[k]), finished := d.finished + {RUNNABLE[k]}))
  {
    RunnablePosition(k);
  }

  lemma MoreDealtKeepsOrder(d: Document, e: Document)
    requires InOrder(d) && e.mark == d.mark && d.finished <= e.finished && d.skipped <= e.skipped
    ensures InOrder(e)
    ensures forall n :: DealtBefore(d, n) ==> DealtBefore(e, n)
  {
  }

  /** No phase starts before all earlier ones are finished or skipped, and starting, finishing,
      failing or dying in one leaves the recorded phase in order, in memory and on disk. */
  lemma ExecuteKeepsOrder(s: Store, k: nat, o: Outcome)
    requires k < |RUNNABLE| && Inv(s) && DealtBefore(s.memory, k + 2)
    ensures var (t, e) := Execute(s, RUNNABLE[k], o);
            Inv(t) && (e.None? ==> DealtBefore(t.memory, k + 3))
  {
    var p := RUNNABLE[k];
    MarkKeepsOrder(s.memory, k);
    if o.Completed? {
      NextPosition(s.memory.(mark := Some(p), finished := s.memory.finished + {p}), k);
    }
  }

  lemma TurnKeepsOrder(c: Config, s: Store, k: nat, w: Weather)
    requires k < |RUNNABLE| && Inv(s) && DealtBefore(s.memory, k + 2)
    ensures var (t, e) := Turn(c, s, RUNNABLE[k], w);
            Inv(t) && (e.None? ==> DealtBefore(t.memory, k + 3))
  {
    var p := RUNNABLE[k];
    RunnablePosition(k);
    if !w.cancelled && !SkippedByConfig(c, p) && !AlreadyPast(c, s.memory.mark, p) && p in c.implemented {
      ExecuteKeepsOrder(s, k, w.outcome);
    } else if !w.cancelled {
      var t := Turn(c, s, p, w).0;
      MoreDealtKeepsOrder(s.memory, t.memory);
      NextPosition(t.memory, k);
    }
  }

  lemma {:induction false} LoopKeepsOrder(c: Config, s: Store, ws: seq<Weather>, k: nat)
    requires k <= |RUNNABLE| == |ws| && Inv(s) && DealtBefore(s.memory, k + 2)
    ensures var (t, e) := Loop(c, s, ws, k);
            Inv(t) && (e.Through? ==> forall p :: p in RUNNABLE ==> Dealt(t.memory, p))
    decreases |RUNNABLE| - k
  {
    if k < |RUNNABLE| {
      TurnKeepsOrder(c, s, k, ws[k]);
      var (t, e) := Turn(c, s, RUNNABLE[k], ws[k]);
      if e.None? {
        LoopKeepsOrder(c, t, ws, k + 1);
      }
    } else {
      forall p | p in RUNNABLE ensures Dealt(s.memory, p) {
        var i :| 0 <= i < |RUNNABLE| && RUNNABLE[i] == p;
        RunnablePosition(i);
      }
    }
  }

  // ----- how a run ends, in terms of what it is given

  /** The recorded phase of a resumed run comes after this one. */
  predicate BeforeRecorded(c: Config, mark: Option<Phase>, p: Phase) {
    c.resume && mark.Some? && exists i :: 0 <= i < |PHASE_ORDER| && PHASE_ORDER[i] == p && mark.value !in PHASE_ORDER[..i + 1]
  }

  /** The user asked to skip it, and it can be. */
  predicate ConfiguredAway(c: Config, p: Phase) {
    p in c.skips && (p == Emoji || p == Avatars || p == Messages || p == Reactions)
  }

  /** With `mark` recorded at the start of the run, whether the phase starts when its turn comes: it is
      implemented, not configured away, and not before the recorded one of a resumed run. */
  predicate Starts(c: Config, mark: Option<Phase>, p: Phase) {
    && p in c.implemented
    && !ConfiguredAway(c, p)
    && !BeforeRecorded(c, mark, p)
  }

  predicate GoesOn(c: Config, mark: Option<Phase>, p: Phase, w: Weather) {
    !w.cancelled && (Starts(c, mark, p) ==> w.outcome.Completed?)
  }

  /** All phases before `k` are skipped, past or completed. */
  predicate Comes(c: Config, mark: Option<Phase>, ws: seq<Weather>, k: nat)
    requires k <= |RUNNABLE| == |ws|
  {
    forall j :: 0 <= j < k ==> GoesOn(c, mark, RUNNABLE[j], ws[j])
  }

  /** The loop comes to phase `k` and sees the cancel flag. */
  predicate CancelledAt(c: Config, mark: Option<Phase>, ws: seq<Weather>, k: nat)
    requires k < |RUNNABLE| == |ws|
  {
    Comes(c, mark, ws, k) && ws[k].cancelled
  }

  /** The loop comes to phase `k`, starts it, and it is interrupted. */
  predicate InterruptedAt(c: Config, mark: Option<Phase>, ws: seq<Weather>, k: nat)
    requires k < |RUNNABLE| == |ws|
  {
    Comes(c, mark, ws, k) && Starts(c, mark, RUNNABLE[k]) && ws[k] == Weather(false, Interrupted)
  }

  /** The phase recorded by the run itself is past no later phase that was not past at its start. */
  ghost predicate Tracks(c: Config, now: Option<Phase>, mark: Option<Phase>, k: nat) {
    forall i :: k <= i < |RUNNABLE| ==> (AlreadyPast(c, now, RUNNABLE[i]) <==> BeforeRecorded(c, mark, RUNNABLE[i]))
  }

  lemma BeforeRecordedExactly(c: Config, mark: Option<Phase>, k: nat)
    requires k < |RUNNABLE|
    ensures BeforeRecorded(c, mark, RUNNABLE[k]) <==> AlreadyPast(c, mark, RUNNABLE[k])
    ensures BeforeRecorded(c, mark, RUNNABLE[k]) <==> c.resume && mark.Some? && k + 2 < Position(mark.value)
  {
    RunnablePosition(k);
    if mark.Some? {
      var n := Position(mark.value);
      assert PHASE_ORDER[k + 2] == RUNNABLE[k];
      assert mark.value in PHASE_ORDER[..k + 3] <==> n < k + 3;
    }
  }

  lemma StartTracks(c: Config, mark: Option<Phase>, k: nat)
    requires k < |RUNNABLE| && !BeforeRecorded(c, mark, RUNNABLE[k])
    ensures Tracks(c, Some(RUNNABLE[k]), mark, k + 1)
  {
    RunnablePosition(k);
    forall i | k + 1 <= i < |RUNNABLE|
      ensures !AlreadyPast(c, Some(RUNNABLE[k]), RUNNABLE[i]) && !BeforeRecorded(c, mark, RUNNABLE[i])
    {
      RunnablePosition(i);
    }
  }

  /** Which phases are dealt with after a turn, apart from the one whose turn it was. */
  ghost predicate SameFrom(d: Document, e: Document, k: nat) {
    forall i :: k <= i < |RUNNABLE| ==> (Dealt(d, RUNNABLE[i]) <==> Dealt(e, RUNNABLE[i]))
  }

  lemma TurnFollows(c: Config, s: Store, mark: Option<Phase>, k: nat, w: Weather)
    requires k < |RUNNABLE| && Tracks(c, s.memory.mark, mark, k)
    ensures var (t, e) := Turn(c, s, RUNNABLE[k], w);
            && (e.None? <==> GoesOn(c, mark, RUNNABLE[k], w))
            && (e.None? ==> Tracks(c, t.memory.mark, mark, k + 1))
            && (e == Some(Cancelled) <==> w.cancelled)
            && (e == Some(Swallowed(RUNNABLE[k])) <==> Starts(c, mark, RUNNABLE[k]) && w == Weather(false, Interrupted))
            && (e.Some? && e.value.Swallowed? ==> e.value.phase == RUNNABLE[k])
            && (e.None? ==> SameFrom(t.memory, s.memory, k + 1))
            && (e.Some? ==> SameFrom(t.memory, s.memory, k) && !e.value.Through?)
            && (e.Some? && e.value.Swallowed? ==> t.memory.mark == Some(RUNNABLE[k]))
  {
    var p := RUNNABLE[k];
    RunnablePosition(k);
    assert forall i :: k < i < |RUNNABLE| ==> RUNNABLE[i] != p by {
      forall i | k < i < |RUNNABLE| ensures RUNNABLE[i] != p {
        RunnablePosition(i);
      }
    }
    if Starts(c, mark, p) && !w.cancelled {
      StartTracks(c, mark, k);
    }
  }

  /** Where the loop ends. */
  lemma {:induction false} LoopEndsAt(c: Config, s: Store, mark: Option<Phase>, ws: seq<Weather>, k: nat) returns (n: nat)
    requires k <= |RUNNABLE| == |ws| && Tracks(c, s.memory.mark, mark, k) && Comes(c, mark, ws, k)
    ensures var (t, e) := Loop(c, s, ws, k);
            && k <= n <= |RUNNABLE| && Comes(c, mark, ws, n)
            && (n < |RUNNABLE| ==> !GoesOn(c, mark, RUNNABLE[n], ws[n]))
            && (e.Through? <==> n == |RUNNABLE|)
            && (e.Cancelled? <==> n < |RUNNABLE| && CancelledAt(c, mark, ws, n))
            && (e.Swallowed? <==> n < |RUNNABLE| && InterruptedAt(c, mark, ws, n))
            && (e.Swallowed? ==> e.phase == RUNNABLE[n] && t.memory.mark == Some(RUNNABLE[n]))
            && SameFrom(t.memory, s.memory, n)
    decreases |RUNNABLE| - k
  {
    if k == |RUNNABLE| {
      n := k;
    } else {
      TurnFollows(c, s, mark, k, ws[k]);
      var (t, e) := Turn(c, s, RUNNABLE[k], ws[k]);
      if e.Some? {
        n := k;
      } else {
        n := LoopEndsAt(c, t, mark, ws, k + 1);
      }
    }
  }

  /** A run that starts over forgets what is recorded, a resumed one loads it. */
  function Open(c: Config, disk: Document): Store {
    Store(if c.resume then disk else Document(None, {}, {}), disk, [])
  }

  // ----- what a run starts, finishes and skips, in terms of what it is given

  predicate Begins(c: Config, mark: Option<Phase>, ws: seq<Weather>, k: nat)
    requires k < |RUNNABLE| == |ws|
  {
    Comes(c, mark, ws, k) && !ws[k].cancelled && Starts(c, mark, RUNNABLE[k])
  }

  /** The phase has no function, or the user asked to skip it. */
  predicate Omitted(c: Config, mark: Option<Phase>, ws: seq<Weather>, k: nat)
    requires k < |RUNNABLE| == |ws|
  {
    && Comes(c, mark, ws, k) && !ws[k].cancelled
    && (ConfiguredAway(c, RUNNABLE[k]) || (!BeforeRecorded(c, mark, RUNNABLE[k]) && RUNNABLE[k] !in c.implemented))
  }

  /** The phases started among the first `n`, in order. */
  function StartedUpTo(c: Config, mark: Option<Phase>, ws: seq<Weather>, n: nat): seq<Phase>
    requires n <= |RUNNABLE| == |ws|
  {
    if n == 0 then []
    else StartedUpTo(c, mark, ws, n - 1) + (if Begins(c, mark, ws, n - 1) then [RUNNABLE[n - 1]] else [])
  }

  function CompletedUpTo(c: Config, mark: Option<Phase>, ws: seq<Weather>, n: nat): set<Phase>
    requires n <= |RUNNABLE| == |ws|
  {
    set i | 0 <= i < n && Begins(c, mark, ws, i) && ws[i].outcome.Completed? :: RUNNABLE[i]
  }

  function OmittedUpTo(c: Config, mark: Option<Phase>, ws: seq<Weather>, n: nat): set<Phase>
    requires n <= |RUNNABLE| == |ws|
  {
    set i | 0 <= i < n && Omitted(c, mark, ws, i) :: RUNNABLE[i]
  }

  /** The phase started last, or else the one recorded before. */
  function Newest(started: seq<Phase>, mark: Option<Phase>): Option<Phase> {
    if started == [] then mark else Some(started[|started| - 1])
  }

  /** How far a run that began with `d` and `before` has come after `n` phases. */
  ghost predicate Progressed(c: Config, d: Document, before: seq<Phase>, ws: seq<Weather>, n: nat, s: Store)
    requires n <= |RUNNABLE| == |ws|
  {
    var started := StartedUpTo(c, d.mark, ws, n);
    && s.started == before + started
    && s.memory.mark == Newest(started, d.mark)
    && s.memory.finished == d.finished + CompletedUpTo(c, d.mark, ws, n)
    && s.memory.skipped == d.skipped + OmittedUpTo(c, d.mark, ws, n)
  }

  lemma OneMorePhase(c: Config, mark: Option<Phase>, ws: seq<Weather>, k: nat)
    requires k < |RUNNABLE| == |ws|
    ensures CompletedUpTo(c, mark, ws, k + 1) == CompletedUpTo(c, mark, ws, k)
              + (if Begins(c, mark, ws, k) && ws[k].outcome.Completed? then {RUNNABLE[k]} else {})
    ensures OmittedUpTo(c, mark, ws, k + 1) == OmittedUpTo(c, mark, ws, k)
              + (if Omitted(c, mark, ws, k) then {RUNNABLE[k]} else {})
  {
  }

  lemma TurnEffect(c: Config, s: Store, mark: Option<Phase>, k: nat, w: Weather)
    requires k < |RUNNABLE| && Tracks(c, s.memory.mark, mark, k)
    ensures var (t, e) := Turn(c, s, RUNNABLE[k], w);
            var p := RUNNABLE[k];
            var begins := !w.cancelled && Starts(c, mark, p);
            var omitted := !w.cancelled && (ConfiguredAway(c, p) || (!BeforeRecorded(c, mark, p) && p !in c.implemented));
            && t.started == s.started + (if begins then [p] else [])
            && t.memory == Document(if begins then Some(p) else s.memory.mark,
                                    s.memory.finished + (if begins && w.outcome.Completed? then {p} else {}),
                                    s.memory.skipped + (if omitted then {p} else {}))
            && (e == Some(Raised) <==> begins && w.outcome.Failed?)
            && (e == Some(Dead) <==> begins && w.outcome.Died?)
  {
    assert AlreadyPast(c, s.memory.mark, RUNNABLE[k]) <==> BeforeRecorded(c, mark, RUNNABLE[k]);
    assert s.started + [] == s.started;
  }

  lemma TurnProgresses(c: Config, d: Document, before: seq<Phase>, ws: seq<Weather>, k: nat, s: Store)
    requires k < |RUNNABLE| == |ws|
    requires Progressed(c, d, before, ws, k, s) && Tracks(c, s.memory.mark, d.mark, k) && Comes(c, d.mark, ws, k)
    ensures Progressed(c, d, before, ws, k + 1, Turn(c, s, RUNNABLE[k], ws[k]).0)
    ensures var (t, e) := Turn(c, s, RUNNABLE[k], ws[k]);
            && (e == Some(Raised) <==> Begins(c, d.mark, ws, k) && ws[k].outcome.Failed?)
            && (e == Some(Dead) <==> Begins(c, d.mark, ws, k) && ws[k].outcome.Died?)
  {
    TurnEffect(c, s, d.mark, k, ws[k]);
    StepProgresses(c, d, before, ws, k, s, Turn(c, s, RUNNABLE[k], ws[k]).0);
  }

  lemma StepProgresses(c: Config, d: Document, before: seq<Phase>, ws: seq<Weather>, k: nat, s: Store, t: Store)
    requires k < |RUNNABLE| == |ws| && Progressed(c, d, before, ws, k, s)
    requires var p, begins, omitted := RUNNABLE[k], Begins(c, d.mark, ws, k), Omitted(c, d.mark, ws, k);
             && t.started == s.started + (if begins then [p] else [])
             && t.memory == Document(if begins then Some(p) else s.memory.mark,
                                     s.memory.finished + (if begins && ws[k].outcome.Completed? then {p} else {}),
                                     s.memory.skipped + (if omitted then {p} else {}))
    ensures Progressed(c, d, before, ws, k + 1, t)
  {
    OneMorePhase(c, d.mark, ws, k);
    var some := if Begins(c, d.mark, ws, k) then [RUNNABLE[k]] else [];
    assert StartedUpTo(c, d.mark, ws, k + 1) == StartedUpTo(c, d.mark, ws, k) + some;
    OneMoreStarted(before, StartedUpTo(c, d.mark, ws, k), some, d.mark);
    Together(d.finished, CompletedUpTo(c, d.mark, ws, k),
             if Begins(c, d.mark, ws, k) && ws[k].outcome.Completed? then {RUNNABLE[k]} else {});
    Together(d.skipped, OmittedUpTo(c, d.mark, ws, k), if Omitted(c, d.mark, ws, k) then {RUNNABLE[k]} else {});
  }

  lemma Together(a: set<Phase>, b: set<Phase>, c: set<Phase>)
    ensures a + b + c == a + (b + c)
  {
  }

  lemma OneMoreStarted(before: seq<Phase>, started: seq<Phase>, some: seq<Phase>, mark: Option<Phase>)
    requires |some| <= 1
    ensures before + started + some == before + (started + some)
    ensures Newest(started + some, mark) == if some == [] then Newest(started, mark) else Some(some[0])
  {
  }

  lemma NothingAfter(c: Config, mark: Option<Phase>, ws: seq<Weather>, k: nat, n: nat)
    requires k < n <= |RUNNABLE| == |ws| && !GoesOn(c, mark, RUNNABLE[k], ws[k])
    ensures StartedUpTo(c, mark, ws, n) == StartedUpTo(c, mark, ws, k + 1)
    ensures CompletedUpTo(c, mark, ws, n) == CompletedUpTo(c, mark, ws, k + 1)
    ensures OmittedUpTo(c, mark, ws, n) == OmittedUpTo(c, mark, ws, k + 1)
    decreases n
  {
    if k + 1 < n {
      NothingAfter(c, mark, ws, k, n - 1);
      OneMorePhase(c, mark, ws, n - 1);
    }
  }

  lemma {:induction false} LoopProgresses(c: Config, d: Document, before: seq<Phase>, ws: seq<Weather>, k: nat, s: Store)
    requires k <= |RUNNABLE| == |ws|
    requires Progressed(c, d, before, ws, k, s) && Tracks(c, s.memory.mark, d.mark, k) && Comes(c, d.mark, ws, k)
    ensures var (t, e) := Loop(c, s, ws, k);
            && Progressed(c, d, before, ws, |RUNNABLE|, t)
            && (e.Raised? <==> exists i :: k <= i < |RUNNABLE| && Begins(c, d.mark, ws, i) && ws[i].outcome.Failed?)
            && (e.Dead? <==> exists i :: k <= i < |RUNNABLE| && Begins(c, d.mark, ws, i) && ws[i].outcome.Died?)
    decreases |RUNNABLE| - k
  {
    if k < |RUNNABLE| {
      TurnProgresses(c, d, before, ws, k, s);
      TurnFollows(c, s, d.mark, k, ws[k]);
      var (t, e) := Turn(c, s, RUNNABLE[k], ws[k]);
      if e.Some? {
        NothingAfter(c, d.mark, ws, k, |RUNNABLE|);
      } else {
        LoopProgresses(c, d, before, ws, k + 1, t);
      }
    }
  }

  lemma NoneStarted(c: Config, s: Store, ws: seq<Weather>)
    requires |ws| == |RUNNABLE|
    ensures Progressed(c, s.memory, s.started, ws, 0, s) && Tracks(c, s.memory.mark, s.memory.mark, 0)
  {
    forall k | 0 <= k < |RUNNABLE| ensures AlreadyPast(c, s.memory.mark, RUNNABLE[k]) <==> BeforeRecorded(c, s.memory.mark, RUNNABLE[k]) {
      BeforeRecordedExactly(c, s.memory.mark, k);
    }
  }

  lemma TwoEnds(c: Config, mark: Option<Phase>, ws: seq<Weather>, k: nat, n: nat)
    requires k < |RUNNABLE| == |ws| && n <= |RUNNABLE| && Comes(c, mark, ws, n)
    requires n < |RUNNABLE| ==> !GoesOn(c, mark, RUNNABLE[n], ws[n])
    requires Comes(c, mark, ws, k) && !GoesOn(c, mark, RUNNABLE[k], ws[k])
    ensures k == n
  {
  }

  /** Main result on one run: it starts, in order, exactly the phases that are implemented, not
      configured away and not before the recorded one, up to the first that does not complete or meets
      the cancel flag; it finishes those that complete, and notes those it leaves out. */
  lemma RunStartsExactly(c: Config, s: Store, ws: seq<Weather>)
    requires |ws| == |RUNNABLE|
    ensures var (t, e) := Loop(c, s, ws, 0);
            && Progressed(c, s.memory, s.started, ws, |RUNNABLE|, t)
            && (e.Raised? <==> exists k :: 0 <= k < |RUNNABLE| && Begins(c, s.memory.mark, ws, k) && ws[k].outcome.Failed?)
            && (e.Dead? <==> exists k :: 0 <= k < |RUNNABLE| && Begins(c, s.memory.mark, ws, k) && ws[k].outcome.Died?)
            && (e.Swallowed? <==> exists k :: 0 <= k < |RUNNABLE| && InterruptedAt(c, s.memory.mark, ws, k))
            && (e.Cancelled? <==> exists k :: 0 <= k < |RUNNABLE| && CancelledAt(c, s.memory.mark, ws, k))
            && (e.Through? <==> Comes(c, s.memory.mark, ws, |RUNNABLE|))
  {
    NoneStarted(c, s, ws);
    LoopProgresses(c, s.memory, s.started, ws, 0, s);
    var n := LoopEndsAt(c, s, s.memory.mark, ws, 0);
    forall k | 0 <= k < |RUNNABLE| && (InterruptedAt(c, s.memory.mark, ws, k) || CancelledAt(c, s.memory.mark, ws, k)) ensures k == n {
      TwoEnds(c, s.memory.mark, ws, k, n);
    }
  }

  /** Up to date but for phases left out since: the recorded phase and the finished ones. */
  ghost predicate UpToDate(s: Store) {
    s.disk.mark == s.memory.mark && s.disk.finished == s.memory.finished && s.disk.skipped <= s.memory.skipped
  }

  lemma {:induction false} LoopSaves(c: Config, s: Store, d: Document, ws: seq<Weather>, k: nat)
    requires k <= |RUNNABLE| == |ws|
    requires UpToDate(s) || (s.disk == d && s.memory.finished == d.finished)
    ensures var (t, e) := Loop(c, s, ws, k);
            && (e.Cancelled? || e.Raised? || e.Swallowed? ==> t.disk == t.memory)
            && (e.Through? ==> UpToDate(t) || (t.disk == d && t.memory.finished == d.finished))
            && (e.Dead? ==> t.disk.finished == t.memory.finished)
    decreases |RUNNABLE| - k
  {
    if k < |RUNNABLE| {
      var (t, e) := Turn(c, s, RUNNABLE[k], ws[k]);
      if e.None? {
        LoopSaves(c, t, d, ws, k + 1);
      }
    }
  }

  /** What a run that began from disk leaves there: all of its memory when it was cut short alive, the
      finished phases also when the process died, and when it went through also the recorded phase,
      unless it finished nothing. */
  lemma RunSaves(c: Config, d: Document, ws: seq<Weather>)
    requires |ws| == |RUNNABLE| && c.resume
    ensures var (t, e) := Loop(c, Open(c, d), ws, 0);
            && (e.Cancelled? || e.Raised? || e.Swallowed? ==> t.disk == t.memory)
            && (e.Through? ==> UpToDate(t) || (t.disk == d && t.memory.finished == d.finished))
            && (e.Dead? ==> t.disk.finished == t.memory.finished)
  {
    LoopSaves(c, Open(c, d), d, ws, 0);
  }

  /** A resumed run starts no phase before the recorded one, and what such phases would have come to
      does not matter to it. */
  lemma ResumeSkipsFinished(c: Config, s: Store, ws: seq<Weather>, other: seq<Weather>, n: nat)
    requires |ws| == |other| == |RUNNABLE| && n <= |RUNNABLE|
    requires c.resume && s.memory.mark.Some?
    requires if n < |RUNNABLE| then s.memory.mark.value == RUNNABLE[n]
             else s.memory.mark.value == Report || s.memory.mark.value == ValidateMigration
    requires forall k :: 0 <= k < |RUNNABLE| ==> ws[k].cancelled == other[k].cancelled && (k >= n ==> ws[k] == other[k])
    ensures s.started <= Loop(c, s, ws, 0).0.started
    ensures forall k :: 0 <= k < n ==> RUNNABLE[k] !in Loop(c, s, ws, 0).0.started[|s.started|..]
    ensures Loop(c, s, ws, 0) == Loop(c, s, other, 0)
  {
    var mark := s.memory.mark;
    RecordedIsPast(c, mark, n);
    RunStarted(c, s, ws);
    StartedAfter(c, mark, ws, n, |RUNNABLE|);
    PastDoesNotMatter(c, s, ws, other, 0, n);
  }

  lemma RunStarted(c: Config, s: Store, ws: seq<Weather>)
    requires |ws| == |RUNNABLE|
    ensures s.started <= Loop(c, s, ws, 0).0.started
    ensures Loop(c, s, ws, 0).0.started[|s.started|..] == StartedUpTo(c, s.memory.mark, ws, |RUNNABLE|)
  {
    RunStartsExactly(c, s, ws);
  }

  lemma RecordedIsPast(c: Config, mark: Option<Phase>, n: nat)
    requires c.resume && mark.Some? && n <= |RUNNABLE|
    requires if n < |RUNNABLE| then mark.value == RUNNABLE[n] else mark.value == Report || mark.value == ValidateMigration
    ensures forall k :: 0 <= k < n ==> BeforeRecorded(c, mark, RUNNABLE[k]) && AlreadyPast(c, mark, RUNNABLE[k])
  {
    forall k | 0 <= k < n ensures BeforeRecorded(c, mark, RUNNABLE[k]) && AlreadyPast(c, mark, RUNNABLE[k]) {
      BeforeRecordedExactly(c, mark, k);
      if n < |RUNNABLE| {
        RunnablePosition(n);
      }
    }
  }

  lemma {:induction false} StartedAfter(c: Config, mark: Option<Phase>, ws: seq<Weather>, n: nat, m: nat)
    requires |ws| == |RUNNABLE| && n <= |RUNNABLE| && m <= |RUNNABLE|
    requires forall k :: 0 <= k < n ==> BeforeRecorded(c, mark, RUNNABLE[k])
    ensures forall p :: p in StartedUpTo(c, mark, ws, m) ==> exists k :: n <= k < m && p == RUNNABLE[k]
    ensures forall k :: 0 <= k < n ==> RUNNABLE[k] !in StartedUpTo(c, mark, ws, m)
    decreases m
  {
    if m > 0 {
      StartedAfter(c, mark, ws, n, m - 1);
    }
    forall k | 0 <= k < n ensures RUNNABLE[k] !in StartedUpTo(c, mark, ws, m) {
      RunnablePosition(k);
      forall j | n <= j < m ensures RUNNABLE[j] != RUNNABLE[k] {
        RunnablePosition(j);
      }
    }
  }

  lemma {:induction false} PastDoesNotMatter(c: Config, s: Store, ws: seq<Weather>, other: seq<Weather>, k: nat, n: nat)
    requires |ws| == |other| == |RUNNABLE| && k <= |RUNNABLE| && n <= |RUNNABLE|
    requires forall i :: k <= i < n ==> AlreadyPast(c, s.memory.mark, RUNNABLE[i])
    requires forall i :: k <= i < |RUNNABLE| ==> ws[i].cancelled == other[i].cancelled && (i >= n ==> ws[i] == other[i])
    ensures Loop(c, s, ws, k) == Loop(c, s, other, k)
    decreases |RUNNABLE| - k
  {
    if k < |RUNNABLE| {
      var (t, e) := Turn(c, s, RUNNABLE[k], ws[k]);
      if e.None? {
        PastDoesNotMatter(c, t, ws, other, k + 1, n);
      }
    }
  }

  // ----- any number of runs

  /** A run that starts over, or one that loads what is on disk. */
  datatype Launch = Launch(config: Config, weather: seq<Weather>, cancelSet: bool)

  function RunOne(l: Launch, disk: Document): (Store, Ending)
    requires |l.weather| == |RUNNABLE|
  {
    var (s, e) := Loop(l.config, Open(l.config, disk), l.weather, 0);
    (Conclude(l.config, s, e, l.cancelSet), e)
  }

  function RunAll(ls: seq<Launch>, disk: Document): Document
    requires forall l :: l in ls ==> |l.weather| == |RUNNABLE|
    decreases |ls|
  {
    if ls == [] then disk else RunAll(ls[1..], RunOne(ls[0], disk).0.disk)
  }

  /** A cancel flag that the loop saw is still set when the loop has returned. */
  ghost predicate FlagStays(l: Launch, d: Document)
    requires |l.weather| == |RUNNABLE|
  {
    forall k :: 0 <= k < |RUNNABLE| && CancelledAt(l.config, d.mark, l.weather, k) ==> l.cancelSet
  }

  /** A phase interrupted with the flag unset, and all phases after it, were dealt with before. */
  ghost predicate InterruptionIsHarmless(l: Launch, d: Document)
    requires |l.weather| == |RUNNABLE|
  {
    forall k, i :: 0 <= k <= i < |RUNNABLE| && InterruptedAt(l.config, d.mark, l.weather, k) && !l.cancelSet ==>
      Dealt(d, RUNNABLE[i])
  }

  lemma ReportInOrder(d: Document, p: Phase)
    requires p == Report || p == ValidateMigration
    ensures InOrder(d.(mark := Some(p))) <==> forall i :: 0 <= i < |RUNNABLE| ==> Dealt(d, RUNNABLE[i])
  {
    forall i | 0 <= i < |RUNNABLE| ensures Position(RUNNABLE[i]) < Position(p) {
      RunnablePosition(i);
    }
  }

  lemma EarlierDealt(d: Document, n: nat)
    requires n < |RUNNABLE| && InOrder(d) && d.mark == Some(RUNNABLE[n])
    ensures forall i :: 0 <= i < n ==> Dealt(d, RUNNABLE[i])
  {
    RunnablePosition(n);
    forall i | 0 <= i < n ensures Dealt(d, RUNNABLE[i]) {
      RunnablePosition(i);
    }
  }

  /** What an interruption that reaches the report leaves behind. */
  lemma InterruptedOrder(c: Config, t: Store, d: Document, n: nat)
    requires n < |RUNNABLE| && Inv(t) && t.memory.mark == Some(RUNNABLE[n]) && SameFrom(t.memory, d, n)
    ensures Inv(Conclude(c, t, Swallowed(RUNNABLE[n]), false)) <==> forall i :: n <= i < |RUNNABLE| ==> Dealt(d, RUNNABLE[i])
  {
    EarlierDealt(t.memory, n);
    ReportInOrder(t.memory, if c.validateAfter then ValidateMigration else Report);
  }

  /** A run, fresh or resumed, ends in order exactly when no phase is interrupted with the cancel flag
      unset, unless it and all later ones had been dealt with before. Otherwise the report is recorded
      although a phase is not finished. */
  lemma RunInOrderExactly(l: Launch, disk: Document)
    requires |l.weather| == |RUNNABLE| && InOrder(disk)
    requires FlagStays(l, Open(l.config, disk).memory)
    ensures Inv(RunOne(l, disk).0) <==> InterruptionIsHarmless(l, Open(l.config, disk).memory)
  {
    var c, ws, s := l.config, l.weather, Open(l.config, disk);
    var mark := s.memory.mark;
    var n := LoopEndsAt(c, s, mark, ws, 0);
    LoopKeepsOrder(c, s, ws, 0);
    var (t, e) := Loop(c, s, ws, 0);
    forall k | 0 <= k < |RUNNABLE| && InterruptedAt(c, mark, ws, k) ensures k == n {
      TwoEnds(c, mark, ws, k, n);
    }
    if e.Swallowed? && !l.cancelSet {
      InterruptedOrder(c, t, s.memory, n);
      assert InterruptedAt(c, mark, ws, n);
    }
  }

  ghost predicate AllSound(ls: seq<Launch>, disk: Document)
    requires forall l :: l in ls ==> |l.weather| == |RUNNABLE|
    decreases |ls|
  {
    ls == [] ||
    (&& FlagStays(ls[0], Open(ls[0].config, disk).memory)
     && InterruptionIsHarmless(ls[0], Open(ls[0].config, disk).memory)
     && AllSound(ls[1..], RunOne(ls[0], disk).0.disk))
  }

  /** Main result: over any fresh starts, resumes, failures, cancellations and crashes, with changing
      configurations, the phase on disk has all its predecessors finished or skipped. */
  lemma {:induction false} EveryRunIsInOrder(ls: seq<Launch>, disk: Document)
    requires forall l :: l in ls ==> |l.weather| == |RUNNABLE|
    requires InOrder(disk) && AllSound(ls, disk)
    ensures InOrder(RunAll(ls, disk))
    decreases |ls|
  {
    if ls != [] {
      RunInOrderExactly(ls[0], disk);
      EveryRunIsInOrder(ls[1..], RunOne(ls[0], disk).0.disk);
    }
  }

  /** In a fresh run nothing was dealt with before, so no interruption with the flag unset is harmless,
      whatever the run found on disk. */
  lemma FreshRunInOrderExactly(l: Launch, disk: Document)
    requires |l.weather| == |RUNNABLE| && !l.config.resume
    requires FlagStays(l, Document(None, {}, {}))
    ensures InOrder(RunOne(l, disk).0.memory) <==>
              l.cancelSet || forall k :: 0 <= k < |RUNNABLE| ==> !InterruptedAt(l.config, None, l.weather, k)
  {
    var nothing := Document(None, {}, {});
    RunInOrderExactly(l, nothing);
    DiskDoesNotMatter(l.config, Open(l.config, disk), Open(l.config, nothing), l.weather, 0);
    MemoryDecides(l, nothing);
    assert forall p :: !Dealt(nothing, p);
  }

  /** A first phase that is interrupted with the flag unset still ends in a saved report. */
  lemma InterruptedReachesReport(ws: seq<Weather>)
    requires |ws| == |RUNNABLE| && ws[0] == Weather(false, Interrupted)
    ensures var l := Launch(Config(false, {}, ToSet(RUNNABLE), false), ws, false);
            var s := RunOne(l, Document(None, {}, {})).0;
            s.disk.mark == Some(Report) && !Dealt(s.disk, Connect)
  {
    assert RUNNABLE[0] == Connect && Connect in ToSet(RUNNABLE);
  }

  /** A run that starts in order on disk ends in order exactly when its memory does. */
  lemma MemoryDecides(l: Launch, disk: Document)
    requires |l.weather| == |RUNNABLE| && InOrder(disk)
    ensures InOrder(RunOne(l, disk).0.memory) <==> Inv(RunOne(l, disk).0)
  {
    LoopKeepsOrder(l.config, Open(l.config, disk), l.weather, 0);
  }

  lemma {:induction false} DiskDoesNotMatter(c: Config, s: Store, r: Store, ws: seq<Weather>, k: nat)
    requires k <= |RUNNABLE| == |ws| && s.memory == r.memory
    ensures Loop(c, s, ws, k).0.memory == Loop(c, r, ws, k).0.memory
    ensures Loop(c, s, ws, k).1 == Loop(c, r, ws, k).1
    decreases |RUNNABLE| - k
  {
    if k < |RUNNABLE| {
      var (t, e) := Turn(c, s, RUNNABLE[k], ws[k]);
      var (u, f) := Turn(c, r, RUNNABLE[k], ws[k]);
      if e.None? {
        DiskDoesNotMatter(c, t, u, ws, k + 1);
      }
    }
  }
}
