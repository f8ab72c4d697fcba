/**
 `BrowserFallback` of `gui_native.py`: requests from any thread, one server event loop, shutdown.
 Each block under the lock is one method and one atomic step; everything between two blocks may
 interleave with every other thread.
 */
module BrowserFallback {
  import opened Common

  /** The fields the lock protects, and the captured loop. */
  datatype Fields = Fields(
    requested: bool,
    stopping: bool,
    claimed: bool,
    task: bool,
    loop: bool,
    dispatches: nat
  )

  // ----- what each locked block does

  /** `request`: None when refused, otherwise whether this is the first request. */
  function Request(f: Fields): (Fields, Option<bool>) {
    if f.stopping || f.claimed then (f, None)
    else (f.(requested := true), Some(!f.requested))
  }

  /** `_schedule_if_requested`: whether a captured loop should be told to create the task. */
  predicate ShouldSchedule(f: Fields) {
    f.loop && f.requested && !f.stopping && !f.task
  }

  /** `_create_readiness_task` */
  function Create(f: Fields): Fields {
    if f.stopping || f.task then f else f.(task := true)
  }

  /** `stop` */
  function Stop(f: Fields): Fields {
    f.(stopping := true)
  }

  /** `_open_if_running`; `exiting` says that the application or the server is shutting down. */
  function Open(f: Fields, exiting: bool): Fields {
    if f.stopping || f.claimed || exiting then f else f.(claimed := true, dispatches := f.dispatches + 1)
  }

  /** The object itself: one method for each block under the lock. */
  class Fallback {
    var requested: bool
    var stopping: bool
    var claimed: bool
    var task: bool
    var loop: bool
    var dispatches: nat

    function Value(): Fields
      reads this
    {
      Fields(requested, stopping, claimed, task, loop, dispatches)
    }

    constructor ()
      ensures Value() == Fields(false, false, false, false, false, 0)
    {
      requested, stopping, claimed, task, loop, dispatches := false, false, false, false, false, 0;
    }

    method MarkRequested() returns (first: Option<bool>)
      modifies this
      ensures (Value(), first) == Request(old(Value()))
      ensures first == if old(stopping) || old(claimed) then None else Some(!old(requested))
      ensures Value() == old(Value()).(requested := old(requested) || first.Some?)
    {
      if stopping || claimed {
        return None;
      }
      first := Some(!requested);
      requested := true;
    }

    method CaptureLoop()
      modifies this
      ensures Value() == old(Value()).(loop := true)
    {
      loop := true;
    }

    method DecideSchedule() returns (schedule: bool)
      ensures schedule <==> ShouldSchedule(Value())
      ensures schedule <==> loop && requested && !stopping && !task
    {
      var captured := loop;
      var wanted := requested && !stopping && !task;
      schedule := captured && wanted;
    }

    method CreateReadinessTask() returns (created: bool)
      modifies this
      ensures Value() == Create(old(Value()))
      ensures created <==> !old(stopping) && !old(task)
      ensures Value() == old(Value()).(task := old(task) || created)
    {
      if stopping || task {
        return false;
      }
      task := true;
      created := true;
    }

    method MarkStopping() returns (cancels: bool)
      modifies this
      ensures Value() == Stop(old(Value()))
      ensures Value() == old(Value()).(stopping := true) && cancels == old(task)
    {
      stopping := true;
      cancels := task;
    }

    /** A browser that cannot be opened still counts as the one dispatch. */
    method OpenIfRunning(exiting: bool) returns (dispatched: bool)
      modifies this
      ensures Value() == Open(old(Value()), exiting)
      ensures dispatched <==> !old(stopping) && !old(claimed) && !exiting
      ensures Value() == if dispatched then old(Value()).(claimed := true, dispatches := old(dispatches) + 1) else old(Value())
    {
      if stopping || claimed || exiting {
        return false;
      }
      claimed := true;
      dispatches := dispatches + 1;
      dispatched := true;
    }
  }

  // ----- all interleavings

  datatype LoopPhase = NotStarted | InService | Ended

  datatype TaskPhase = Polling | Opening | Finished

  /** A thread inside `request` or `on_startup`; `first` is what `request` will return. */
  datatype Pc =
    | Scheduling(first: bool)
    | Decided(first: bool, schedule: bool)

  /** `trues` counts requests that returned True, `created` the tasks, `late` the dispatches begun
      after `stop` had returned. `reachable` records that the server answered with status 200. */
  datatype System = System(
    f: Fields,
    phase: LoopPhase,
    threads: map<nat, Pc>,
    callbacks: nat,
    taskPhase: TaskPhase,
    opening: nat,
    trues: nat,
    created: nat,
    stopReturned: bool,
    reachable: bool,
    late: nat
  )

  datatype Step =
    | LoopStarts
    | LoopEnds
    | RequestBegins(t: nat)
    | StartupBegins(t: nat)
    | Decides(t: nat)
    | Posts(t: nat)
    | CallbackRuns
    | Answered
    | TaskEnds
    | OpenRuns(exiting: bool)
    | StopBegins
    | StopReturns

  function Initial(): System {
    System(Fields(false, false, false, false, false, 0), NotStarted, map[], 0, Polling, 0, 0, 0, false, false, 0)
  }

  predicate Enabled(s: System, step: Step) {
    match step
    case LoopStarts => s.phase.NotStarted?
    case LoopEnds => s.phase.InService?
    case RequestBegins(t) => t !in s.threads
    // the hook runs on the loop it captures
    case StartupBegins(t) => t !in s.threads && s.phase.InService?
    case Decides(t) => t in s.threads && s.threads[t].Scheduling?
    case Posts(t) => t in s.threads && s.threads[t].Decided?
    case CallbackRuns => s.callbacks > 0 && s.phase.InService?
    case Answered => s.f.task && s.taskPhase.Polling? && s.phase.InService?
    case TaskEnds => s.f.task
    case OpenRuns(_) => s.opening > 0
    case StopBegins => true
    case StopReturns => s.f.stopping
  }

  function Apply(s: System, step: Step): System
    requires Enabled(s, step)
  {
    match step
    case LoopStarts => s.(phase := InService)
    case LoopEnds => s.(phase := Ended)
    case RequestBegins(t) =>
      var (f, first) := Request(s.f);
      if first.None? then s else s.(f := f, threads := s.threads[t := Scheduling(first.value)])
    case StartupBegins(t) => s.(f := s.f.(loop := true), threads := s.threads[t := Scheduling(false)])
    case Decides(t) => s.(threads := s.threads[t := Decided(s.threads[t].first, ShouldSchedule(s.f))])
    case Posts(t) =>
      var pc := s.threads[t];
      s.(threads := s.threads - {t},
         callbacks := if pc.schedule && s.phase.InService? then s.callbacks + 1 else s.callbacks,
         trues := if pc.first then s.trues + 1 else s.trues)
    case CallbackRuns =>
      var f := Create(s.f);
      s.(f := f, callbacks := s.callbacks - 1, created := if f != s.f then s.created + 1 else s.created)
    case Answered =>
      // a task that sees the stop flag ends instead; the thread it starts cannot be cancelled
      s.(taskPhase := Opening, opening := s.opening + 1, reachable := true)
    case TaskEnds => s.(taskPhase := Finished)
    case OpenRuns(exiting) =>
      var f := Open(s.f, exiting);
      s.(f := f, opening := s.opening - 1, late := if f != s.f && s.stopReturned then s.late + 1 else s.late)
    case StopBegins => s.(f := Stop(s.f))
    case StopReturns => s.(stopReturned := true)
  }

  predicate Runs(s: System, steps: seq<Step>)
    decreases |steps|
  {
    steps == [] || (Enabled(s, steps[0]) && Runs(Apply(s, steps[0]), steps[1..]))
  }

  function After(s: System, steps: seq<Step>): System
    requires Runs(s, steps)
    decreases |steps|
  {
    if steps == [] then s else After(Apply(s, steps[0]), steps[1..])
  }

  /** A readiness task exists, or something already under way will create it. */
  ghost predicate WakeupPending(s: System) {
    || s.f.task
    || s.callbacks > 0
    || exists t :: t in s.threads && (s.threads[t].Scheduling? || s.threads[t].schedule)
  }

  ghost predicate WakeupDue(s: System) {
    s.f.requested && s.f.loop && s.phase.InService? && !s.f.stopping
  }

  ghost predicate HoldsFirst(s: System, t: nat) {
    t in s.threads && s.threads[t].first
  }

  /** The first request is on its way to return True, or has. */
  ghost predicate OneFirst(s: System) {
    && s.trues <= 1
    && (forall t, u :: HoldsFirst(s, t) && HoldsFirst(s, u) ==> t == u)
    && (s.trues == 1 ==> forall t :: !HoldsFirst(s, t))
    && (s.f.requested <==> s.trues == 1 || exists t :: HoldsFirst(s, t))
  }

  /** One claim is one dispatch, one task is one creation, and one answer opens at most once. */
  ghost predicate Counted(s: System) {
    && s.f.dispatches == (if s.f.claimed then 1 else 0)
    && s.created == (if s.f.task then 1 else 0)
    && s.opening + s.f.dispatches <= (if s.taskPhase.Polling? then 0 else 1)
    && (!s.f.task ==> s.taskPhase.Polling?)
    && (s.stopReturned ==> s.f.stopping)
    && s.late == 0
  }

  /** Nothing happens unasked. */
  ghost predicate AskedFor(s: System) {
    && (s.f.task || s.callbacks > 0 || s.opening > 0 || s.f.claimed ==> s.f.requested)
    && (forall t :: t in s.threads && s.threads[t].Decided? && s.threads[t].schedule ==> s.f.requested)
    && (s.opening > 0 || s.f.claimed ==> s.reachable)
    && (s.f.loop ==> !s.phase.NotStarted?)
  }

  ghost predicate Invariant(s: System) {
    && OneFirst(s) && Counted(s) && AskedFor(s)
    && (WakeupDue(s) ==> WakeupPending(s))
  }

  lemma StepKeepsCounted(s: System, step: Step)
    requires Counted(s) && Enabled(s, step)
    ensures Counted(Apply(s, step))
  {
  }

  lemma StepKeepsAsked(s: System, step: Step)
    requires AskedFor(s) && Enabled(s, step)
    ensures AskedFor(Apply(s, step))
  {
    var n := Apply(s, step);
    if step.Decides? {
      assert n.threads[step.t].schedule ==> s.f.requested;
    }
    if step.Posts? {
      assert s.threads[step.t].schedule ==> s.f.requested;
    }
  }

  lemma StepKeepsFirst(s: System, step: Step)
    requires OneFirst(s) && Enabled(s, step)
    ensures OneFirst(Apply(s, step))
  {
    var n := Apply(s, step);
    match step
    case RequestBegins(t) =>
      if n != s {
        assert forall u :: u != t ==> (HoldsFirst(n, u) <==> HoldsFirst(s, u));
        assert !s.f.requested ==> HoldsFirst(n, t);
      }
    case StartupBegins(t) =>
      assert forall u :: HoldsFirst(n, u) <==> HoldsFirst(s, u);
    case Decides(t) =>
      assert forall u :: HoldsFirst(n, u) <==> HoldsFirst(s, u);
    case Posts(t) =>
      assert forall u :: u != t ==> (HoldsFirst(n, u) <==> HoldsFirst(s, u));
      assert s.threads[t].first ==> HoldsFirst(s, t);
    case _ =>
      assert forall u :: HoldsFirst(n, u) <==> HoldsFirst(s, u);
  }

  /** No step loses a wakeup that is due. */
  lemma StepKeepsWakeup(s: System, step: Step)
    requires AskedFor(s) && (WakeupDue(s) ==> WakeupPending(s)) && Enabled(s, step)
    ensures WakeupDue(Apply(s, step)) ==> WakeupPending(Apply(s, step))
  {
    var n := Apply(s, step);
    if WakeupDue(n) {
      match step
      case RequestBegins(t) =>
        if n != s {
          assert n.threads[t].Scheduling?;
        }
      case StartupBegins(t) =>
        assert n.threads[t].Scheduling?;
      case Decides(t) =>
        if !n.f.task {
          assert n.threads[t].schedule;
        }
      case Posts(t) =>
        if !s.f.task && s.callbacks == 0 {
          var u :| u in s.threads && (s.threads[u].Scheduling? || s.threads[u].schedule);
          assert u != t ==> u in n.threads && n.threads[u] == s.threads[u];
        }
      case _ =>
    }
  }

  lemma StepKeepsInvariant(s: System, step: Step)
    requires Invariant(s) && Enabled(s, step)
    ensures Invariant(Apply(s, step))
  {
    StepKeepsFirst(s, step);
    StepKeepsCounted(s, step);
    StepKeepsAsked(s, step);
    StepKeepsWakeup(s, step);
  }

  lemma {:induction false} RunKeepsInvariant(s: System, steps: seq<Step>)
    requires Invariant(s) && Runs(s, steps)
    ensures Invariant(After(s, steps))
    decreases |steps|
  {
    if steps != [] {
      StepKeepsInvariant(s, steps[0]);
      RunKeepsInvariant(Apply(s, steps[0]), steps[1..]);
    }
  }

  /** Main safety result over every interleaving: at most one browser dispatch and one readiness
      task, at most one request answers True, a dispatch only after a request and a reachable
      server, none begun after `stop` returned, and no wakeup that is due is lost. */
  lemma EveryInterleavingIsSafe(steps: seq<Step>)
    requires Runs(Initial(), steps)
    ensures var s := After(Initial(), steps);
            && s.f.dispatches <= 1 && s.created <= 1 && s.trues <= 1
            && (s.f.dispatches == 1 ==> s.f.requested && s.reachable)
            && s.late == 0
            && (WakeupDue(s) ==> WakeupPending(s))
  {
    RunKeepsInvariant(Initial(), steps);
  }

  /** A due wakeup needs at most three more steps, all enabled, to have its readiness task. */
  lemma WakeupReachesTask(s: System) returns (steps: seq<Step>)
    requires Invariant(s) && WakeupDue(s)
    ensures |steps| <= 3 && Runs(s, steps) && After(s, steps).f.task
  {
    if s.f.task {
      steps := [];
    } else if s.callbacks > 0 {
      steps := [CallbackRuns];
      assert steps[1..] == [];
    } else {
      var t :| t in s.threads && (s.threads[t].Scheduling? || s.threads[t].schedule);
      var decided, rest := s, [Posts(t), CallbackRuns];
      assert rest[1..] == [CallbackRuns] && rest[1..][1..] == [];
      if s.threads[t].Scheduling? {
        decided := Apply(s, Decides(t));
        steps := [Decides(t)] + rest;
        assert steps[1..] == rest;
      } else {
        steps := rest;
      }
      assert decided.threads[t].schedule;
      var posted := Apply(decided, Posts(t));
      assert posted.callbacks > 0 && Apply(posted, CallbackRuns).f.task;
      assert After(posted, [CallbackRuns]) == After(Apply(posted, CallbackRuns), [CallbackRuns][1..]);
      assert After(decided, rest) == After(posted, rest[1..]);
    }
  }

  /** A polling task that is answered, with nothing shutting down, opens the browser: two enabled steps
      make the one dispatch. An application that is exiting opens nothing. */
  lemma AnswerReachesBrowser(s: System)
    requires Invariant(s) && s.f.task && s.taskPhase.Polling? && s.phase.InService? && !s.f.stopping
    ensures Runs(s, [Answered, OpenRuns(false)]) && After(s, [Answered, OpenRuns(false)]).f.dispatches == 1
    ensures Runs(s, [Answered, OpenRuns(true)]) && After(s, [Answered, OpenRuns(true)]).f == s.f
  {
    var answered := Apply(s, Answered);
    forall exiting: bool
      ensures Runs(s, [Answered, OpenRuns(exiting)])
      ensures After(s, [Answered, OpenRuns(exiting)]) == Apply(answered, OpenRuns(exiting))
    {
      assert [Answered, OpenRuns(exiting)][1..] == [OpenRuns(exiting)] && [OpenRuns(exiting)][1..] == [];
      assert Runs(answered, [OpenRuns(exiting)]);
      assert After(answered, [OpenRuns(exiting)]) == After(Apply(answered, OpenRuns(exiting)), [OpenRuns(exiting)][1..]);
    }
  }

  /** Every request that has been accepted first will return True once its thread is scheduled:
      after a request, exactly one thread carries or has delivered the True answer. */
  lemma OneRequestAnswersTrue(steps: seq<Step>)
    requires Runs(Initial(), steps)
    ensures var s := After(Initial(), steps);
            && (s.f.requested ==> s.trues == 1 || exists t :: HoldsFirst(s, t))
            && (!s.f.requested ==> s.trues == 0 && forall t :: !HoldsFirst(s, t))
            && (forall t, u :: HoldsFirst(s, t) && HoldsFirst(s, u) ==> t == u)
  {
    RunKeepsInvariant(Initial(), steps);
  }

  /** Once `stop` has set its flag no step dispatches, creates a task or accepts a request. */
  lemma StoppedStaysQuiet(s: System, step: Step)
    requires Invariant(s) && Enabled(s, step) && s.f.stopping
    ensures var n := Apply(s, step);
            && n.f.stopping && n.f.dispatches == s.f.dispatches && n.created == s.created
            && (step.RequestBegins? ==> n == s)
  {
  }
}
