/**
 `_run_retry_failed`: the dead-letter queue is walked as a snapshot while the callee appends to the
 live queue, and rebuilt from what is still unresolved.
 */
module RetryQueue {
  import opened Common
  import opened Delivery

  datatype Failure = Failure(
    messageId: string,
    channel: string,
    error: string,
    retryCount: nat,
    preview: string,
    ref: Option<DeliveryRef>
  )

  /** One message of an export with the id of a failed one. */
  datatype Found = Found(source: string, isThread: bool, category: string, parentName: string)

  datatype Context = Context(
    channelMap: map<string, string>,
    parentNames: map<string, string>,
    found: map<string, seq<Found>>
  )

  /** What the callee did with one message, and what it appended to the live queue meanwhile.
      Halted is a permission stop, which ends the whole operation. */
  datatype Verdict = Resolved | Unresolved(error: string) | Halted
  datatype Attempt = Attempt(verdict: Verdict, appended: seq<Failure>)

  // ----- relating a failure to its source

  function Get(m: map<string, string>, k: string): Option<string> {
    if k in m then Some(m[k]) else None
  }

  function ParentOf(ctx: Context, f: Found): Option<string> {
    if f.category != "" then Get(ctx.channelMap, f.category) else Get(ctx.parentNames, f.parentName)
  }

  /** The deliveries one found message could be, before the recorded reference is consulted. */
  function Readings(ctx: Context, f: Found, messageId: string, channel: string): seq<DeliveryRef> {
    (if Get(ctx.channelMap, f.source) == Some(channel)
     then [DeliveryRef(f.source, messageId, channel, Ordinary, Base)] else [])
    + (if f.isThread && ParentOf(ctx, f) == Some(channel)
       then [DeliveryRef(f.source, messageId, channel, Merged, Base)] else [])
  }

  function AllReadings(ctx: Context, fs: seq<Found>, messageId: string, channel: string): seq<DeliveryRef> {
    if fs == [] then []
    else Readings(ctx, fs[0], messageId, channel) + AllReadings(ctx, fs[1..], messageId, channel)
  }

  /** A recorded reference keeps only the readings of the same delivery, and stands for them. */
  function Agreeing(readings: seq<DeliveryRef>, recorded: Option<DeliveryRef>): seq<DeliveryRef> {
    if recorded.None? then readings
    else if readings == [] then []
    else (if Logical(recorded.value) == readings[0] then [recorded.value] else []) + Agreeing(readings[1..], recorded)
  }

  function FoundFor(ctx: Context, f: Failure): seq<Found> {
    if f.messageId in ctx.found then ctx.found[f.messageId] else []
  }

  /** `_retry_message_candidates` */
  function Candidates(ctx: Context, f: Failure): seq<DeliveryRef> {
    Agreeing(AllReadings(ctx, FoundFor(ctx, f), f.messageId, f.channel), f.ref)
  }

  /** The one delivery a failure is about, when the exports settle it. */
  function UniqueSource(ctx: Context, f: Failure): Option<DeliveryRef> {
    var c := Candidates(ctx, f);
    if |c| == 1 then Some(Logical(c[0])) else None
  }

  /** The delivery the loop dispatches for a failure; None when it is not retried. */
  function DispatchSource(ctx: Context, f: Failure): Option<DeliveryRef> {
    if FoundFor(ctx, f) != [] && f.channel in ctx.channelMap.Values then UniqueSource(ctx, f) else None
  }

  // ----- one turn of the loop

  function Latest(appended: seq<Failure>, f: Failure): Option<Failure> {
    if appended == [] then None
    else
      var last := appended[|appended| - 1];
      if last.messageId == f.messageId && last.channel == f.channel then Some(last)
      else Latest(appended[..|appended| - 1], f)
  }

  /** The record of a message that was attempted and failed again. */
  function Bumped(f: Failure, appended: seq<Failure>, error: string): Failure {
    var latest := Latest(appended, f);
    if latest.None? then f.(retryCount := f.retryCount + 1, error := error)
    else f.(retryCount := f.retryCount + 1, error := latest.value.error, preview := latest.value.preview,
            ref := if latest.value.ref.Some? then latest.value.ref else f.ref)
  }

  /** A record carried over, with its place in the snapshot. */
  datatype Carry = Carry(index: nat, record: Failure)

  /** A dispatch, with the place of its record in the snapshot. */
  datatype Sent = Sent(index: nat, source: DeliveryRef, resolved: bool)

  datatype Progress = Progress(
    still: seq<Carry>,
    resolved: set<DeliveryRef>,
    retried: nat,
    queue: seq<Failure>,
    log: seq<Sent>,
    halted: bool
  )

  /** One record; `source` is what `DispatchSource` gives for it. */
  function Turn(p: Progress, i: nat, f: Failure, a: Attempt, source: Option<DeliveryRef>): Progress {
    if source.None? then p.(still := p.still + [Carry(i, f)])
    else if source.value in p.resolved then p
    else
      var q := p.(queue := p.queue + a.appended, log := p.log + [Sent(i, source.value, a.verdict.Resolved?)]);
      match a.verdict
      case Resolved => q.(resolved := p.resolved + {source.value}, retried := p.retried + 1)
      case Unresolved(error) => q.(still := p.still + [Carry(i, Bumped(f, a.appended, error))])
      case Halted => q.(halted := true)
  }

  function Turns(
    p: Progress, snapshot: seq<Failure>, attempts: seq<Attempt>, sources: seq<Option<DeliveryRef>>, i: nat): Progress
    requires i <= |snapshot| == |attempts| == |sources|
    decreases |snapshot| - i
  {
    if i == |snapshot| || p.halted then p
    else Turns(Turn(p, i, snapshot[i], attempts[i], sources[i]), snapshot, attempts, sources, i + 1)
  }

  lemma TurnsStep(p: Progress, snapshot: seq<Failure>, attempts: seq<Attempt>, sources: seq<Option<DeliveryRef>>, i: nat)
    requires i < |snapshot| == |attempts| == |sources| && !p.halted
    ensures var q := Turn(p, i, snapshot[i], attempts[i], sources[i]);
            && Turns(p, snapshot, attempts, sources, i) == Turns(q, snapshot, attempts, sources, i + 1)
            && (q.halted ==> Turns(q, snapshot, attempts, sources, i + 1) == q)
  {
  }

  function Start(snapshot: seq<Failure>): Progress {
    Progress([], {}, 0, snapshot, [], false)
  }

  function Dispatches(ctx: Context, snapshot: seq<Failure>): (r: seq<Option<DeliveryRef>>)
    ensures |r| == |snapshot|
    ensures forall k :: 0 <= k < |snapshot| ==> r[k] == DispatchSource(ctx, snapshot[k])
  {
    seq(|snapshot|, i requires 0 <= i < |snapshot| => DispatchSource(ctx, snapshot[i]))
  }

  /** The whole walk over the snapshot. */
  function Retry(ctx: Context, snapshot: seq<Failure>, attempts: seq<Attempt>): Progress
    requires |snapshot| == |attempts|
  {
    Turns(Start(snapshot), snapshot, attempts, Dispatches(ctx, snapshot), 0)
  }

  predicate Among(source: Option<DeliveryRef>, resolved: set<DeliveryRef>) {
    source.Some? && source.value in resolved
  }

  predicate Settled(ctx: Context, f: Failure, resolved: set<DeliveryRef>) {
    Among(UniqueSource(ctx, f), resolved)
  }

  /** The final pass: a carried record whose source was resolved by another one goes too. */
  function Remaining(ctx: Context, still: seq<Carry>, resolved: set<DeliveryRef>): (r: seq<Carry>)
    ensures forall c :: c in r <==> c in still && !Settled(ctx, c.record, resolved)
  {
    if still == [] then []
    else (if Settled(ctx, still[0].record, resolved) then [] else [still[0]]) + Remaining(ctx, still[1..], resolved)
  }

  function Records(cs: seq<Carry>): (r: seq<Failure>)
    ensures |r| == |cs|
    ensures forall i :: 0 <= i < |cs| ==> r[i] == cs[i].record
  {
    seq(|cs|, i requires 0 <= i < |cs| => cs[i].record)
  }

  // ----- what the attempts alone decide

  /** The sources that an attempt among the first `n` resolved. */
  function ResolvedBy(sources: seq<Option<DeliveryRef>>, attempts: seq<Attempt>, n: nat): (r: set<DeliveryRef>)
    requires n <= |sources| == |attempts|
    ensures forall s :: s in r <==> exists i :: 0 <= i < n && sources[i] == Some(s) && attempts[i].verdict.Resolved?
  {
    set i | 0 <= i < n && sources[i].Some? && attempts[i].verdict.Resolved? :: sources[i].value
  }

  /** The record's source is sent: no earlier attempt resolved it. */
  predicate Dispatched(sources: seq<Option<DeliveryRef>>, attempts: seq<Attempt>, i: nat)
    requires i < |sources| == |attempts|
  {
    sources[i].Some? && sources[i].value !in ResolvedBy(sources, attempts, i)
  }

  predicate HaltsAt(sources: seq<Option<DeliveryRef>>, attempts: seq<Attempt>, i: nat)
    requires i < |sources| == |attempts|
  {
    Dispatched(sources, attempts, i) && attempts[i].verdict.Halted?
  }

  /** The first permission stop. */
  predicate StopsAt(sources: seq<Option<DeliveryRef>>, attempts: seq<Attempt>, h: int)
    requires |sources| == |attempts|
  {
    0 <= h < |sources| && HaltsAt(sources, attempts, h) && forall i :: 0 <= i < h ==> !HaltsAt(sources, attempts, i)
  }

  /** What the callee appended in the first `n` turns. */
  function Appended(sources: seq<Option<DeliveryRef>>, attempts: seq<Attempt>, n: nat): seq<Failure>
    requires n <= |sources| == |attempts|
  {
    if n == 0 then []
    else Appended(sources, attempts, n - 1) + (if Dispatched(sources, attempts, n - 1) then attempts[n - 1].appended else [])
  }

  // ----- in place

  class DeadLetters {
    var failedMessages: seq<Failure>

    constructor (initial: seq<Failure>)
      ensures failedMessages == initial
    {
      failedMessages := initial;
    }

    /** The delivery to dispatch for a failure, if its export message, its channel and one candidate
        settle it. */
    static method ChooseSource(ctx: Context, f: Failure) returns (source: Option<DeliveryRef>)
      ensures source == DispatchSource(ctx, f)
    {
      var candidates := Candidates(ctx, f);
      if FoundFor(ctx, f) == [] || f.channel !in ctx.channelMap.Values || |candidates| != 1 {
        return None;
      }
      source := Some(Logical(candidates[0]));
    }

    /** The loop: it walks a snapshot, so it ends although every failed attempt appends to the live
        queue. */
    method Walk(ctx: Context, snapshot: seq<Failure>, attempts: seq<Attempt>)
      returns (still: seq<Carry>, resolved: set<DeliveryRef>, retried: nat, halted: bool)
      requires |attempts| == |snapshot| && failedMessages == snapshot
      modifies this
      ensures var p := Retry(ctx, snapshot, attempts);
              && still == p.still && resolved == p.resolved && retried == p.retried && halted == p.halted
              && failedMessages == p.queue
    {
      still, resolved, retried := [], {}, 0;
      ghost var log: seq<Sent> := [];
      ghost var sources := Dispatches(ctx, snapshot);
      ghost var p, all := Start(snapshot), Retry(ctx, snapshot, attempts);
      for i := 0 to |snapshot|
        invariant p == Progress(still, resolved, retried, failedMessages, log, false)
        invariant Turns(p, snapshot, attempts, sources, i) == all
      {
        TurnsStep(p, snapshot, attempts, sources, i);
        p := Turn(p, i, snapshot[i], attempts[i], sources[i]);
        var f := snapshot[i];
        var chosen := ChooseSource(ctx, f);
        if chosen.None? {
          still := still + [Carry(i, f)];
          continue;
        }
        var source := chosen.value;
        if source in resolved {
          continue;
        }
        failedMessages := failedMessages + attempts[i].appended;
        log := log + [Sent(i, source, attempts[i].verdict.Resolved?)];
        match attempts[i].verdict {
          case Resolved =>
            resolved := resolved + {source};
            retried := retried + 1;
          case Unresolved(error) =>
            still := still + [Carry(i, Bumped(f, attempts[i].appended, error))];
          case Halted =>
            return still, resolved, retried, true;
        }
      }
      halted := false;
    }

    /** After a permission stop the live queue is left as it is, otherwise it is rebuilt from what is
        still unresolved. */
    method RunRetryFailed(ctx: Context, attempts: seq<Attempt>) returns (retried: nat, completed: bool)
      requires |attempts| == |failedMessages|
      modifies this
      ensures var p := Retry(ctx, old(failedMessages), attempts);
              && completed == !p.halted
              && retried == p.retried
              && failedMessages == if p.halted then p.queue else Records(Remaining(ctx, p.still, p.resolved))
      ensures var sources := Dispatches(ctx, old(failedMessages));
              && (completed <==> forall i :: 0 <= i < |sources| ==> !HaltsAt(sources, attempts, i))
              && (completed ==> retried == |ResolvedBy(sources, attempts, |sources|)|)
              && (!completed ==> exists h :: StopsAt(sources, attempts, h)
                                             && retried == |ResolvedBy(sources, attempts, h)|
                                             && failedMessages == old(failedMessages) + Appended(sources, attempts, h + 1))
    {
      var snapshot := failedMessages;
      var still, resolved, halted;
      still, resolved, retried, halted := Walk(ctx, snapshot, attempts);
      RetryOutcome(ctx, snapshot, attempts, Dispatches(ctx, snapshot));
      if !halted {
        failedMessages := Records(Remaining(ctx, still, resolved));
      }
      completed := !halted;
    }
  }

  // ----- conservation

  /** A record that was attempted and failed again is carried with one more attempt, any other as
      it was. */
  predicate CarriedFrom(f: Failure, a: Attempt, source: Option<DeliveryRef>, c: Failure) {
    if source.Some? && a.verdict.Unresolved? then c == Bumped(f, a.appended, a.verdict.error) else c == f
  }

  ghost predicate Kept(still: seq<Carry>, k: nat) {
    exists j :: 0 <= j < |still| && still[j].index == k
  }

  /** The callee records a repeated failure under the delivery it was asked to send. */
  ghost predicate HonestCallee(ctx: Context, snapshot: seq<Failure>, attempts: seq<Attempt>)
    requires |snapshot| == |attempts|
  {
    forall i, a :: 0 <= i < |snapshot| && a in attempts[i].appended && a.ref.Some?
                   && a.messageId == snapshot[i].messageId && a.channel == snapshot[i].channel
                   && UniqueSource(ctx, snapshot[i]).Some? ==>
                     Logical(a.ref.value) == UniqueSource(ctx, snapshot[i]).value
  }

  ghost predicate Ascending(cs: seq<Carry>) {
    forall i, j :: 0 <= i < j < |cs| ==> cs[i].index < cs[j].index
  }

  ghost predicate CarriesOf(
    snapshot: seq<Failure>, attempts: seq<Attempt>, sources: seq<Option<DeliveryRef>>, n: nat, cs: seq<Carry>)
    requires n <= |snapshot| == |attempts| == |sources|
  {
    forall c :: c in cs ==>
      c.index < n && CarriedFrom(snapshot[c.index], attempts[c.index], sources[c.index], c.record)
  }

  ghost predicate AllAccounted(sources: seq<Option<DeliveryRef>>, n: nat, p: Progress)
    requires n <= |sources|
  {
    forall k :: 0 <= k < n ==> Kept(p.still, k) || Among(sources[k], p.resolved)
  }

  ghost predicate Reports(e: Sent, sources: seq<Option<DeliveryRef>>, attempts: seq<Attempt>, n: nat)
    requires n <= |sources| == |attempts|
  {
    && e.index < n && Dispatched(sources, attempts, e.index)
    && e.source == sources[e.index].value && e.resolved == attempts[e.index].verdict.Resolved?
  }

  /** The log lists the dispatches of the first `n` turns, each once and in order. */
  ghost predicate LogIs(log: seq<Sent>, sources: seq<Option<DeliveryRef>>, attempts: seq<Attempt>, n: nat)
    requires n <= |sources| == |attempts|
  {
    && (forall e :: e in log <==> Reports(e, sources, attempts, n))
    && (forall i, j :: 0 <= i < j < |log| ==> log[i].index < log[j].index)
  }

  ghost predicate Accounted(
    snapshot: seq<Failure>, attempts: seq<Attempt>, sources: seq<Option<DeliveryRef>>, n: nat, p: Progress)
    requires n <= |snapshot| == |attempts| == |sources|
  {
    && CarriesOf(snapshot, attempts, sources, n, p.still) && Ascending(p.still)
    && AllAccounted(sources, n, p)
    && Follows(snapshot, attempts, sources, n, n, p)
    && forall i :: 0 <= i < n ==> !HaltsAt(sources, attempts, i)
  }

  /** Sources, count, log and live queue are those of the attempts: `n` turns were taken, and the
      first `w` of them settled what is resolved. */
  ghost predicate Follows(
    snapshot: seq<Failure>, attempts: seq<Attempt>, sources: seq<Option<DeliveryRef>>, w: nat, n: nat, p: Progress)
    requires w <= n <= |snapshot| == |attempts| == |sources|
  {
    && p.resolved == ResolvedBy(sources, attempts, w)
    && p.retried == |p.resolved|
    && p.queue == snapshot + Appended(sources, attempts, n)
    && LogIs(p.log, sources, attempts, n)
  }

  /** What a permission stop leaves. */
  ghost predicate Stopped(snapshot: seq<Failure>, attempts: seq<Attempt>, sources: seq<Option<DeliveryRef>>, p: Progress)
    requires |snapshot| == |attempts| == |sources|
  {
    exists h :: StopsAt(sources, attempts, h) && Follows(snapshot, attempts, sources, h, h + 1, p)
  }

  lemma {:induction false} AgreeingOnOne(readings: seq<DeliveryRef>, a: DeliveryRef, b: DeliveryRef)
    requires Logical(a) == Logical(b)
    ensures |Agreeing(readings, Some(a))| == |Agreeing(readings, Some(b))|
    ensures forall i :: 0 <= i < |Agreeing(readings, Some(a))| ==> Agreeing(readings, Some(a))[i] == a
    ensures forall i :: 0 <= i < |Agreeing(readings, Some(b))| ==> Agreeing(readings, Some(b))[i] == b
    decreases |readings|
  {
    if readings != [] {
      AgreeingOnOne(readings[1..], a, b);
    }
  }

  lemma {:induction false} ReadingsAreBase(ctx: Context, fs: seq<Found>, messageId: string, channel: string)
    ensures forall i :: 0 <= i < |AllReadings(ctx, fs, messageId, channel)| ==>
              AllReadings(ctx, fs, messageId, channel)[i].generation == Base
    decreases |fs|
  {
    if fs != [] {
      ReadingsAreBase(ctx, fs[1..], messageId, channel);
    }
  }

  lemma {:induction false} LatestIsAppended(appended: seq<Failure>, f: Failure)
    ensures Latest(appended, f).Some? ==>
              && Latest(appended, f).value in appended
              && Latest(appended, f).value.messageId == f.messageId
              && Latest(appended, f).value.channel == f.channel
    decreases |appended|
  {
    if appended != [] {
      LatestIsAppended(appended[..|appended| - 1], f);
    }
  }

  /** A repeated failure keeps naming the source it was dispatched for. */
  lemma BumpedKeepsSource(ctx: Context, snapshot: seq<Failure>, attempts: seq<Attempt>, i: nat, error: string)
    requires |snapshot| == |attempts| && i < |snapshot|
    requires HonestCallee(ctx, snapshot, attempts) && UniqueSource(ctx, snapshot[i]).Some?
    ensures UniqueSource(ctx, Bumped(snapshot[i], attempts[i].appended, error)) == UniqueSource(ctx, snapshot[i])
  {
    var f, appended := snapshot[i], attempts[i].appended;
    var g := Bumped(f, appended, error);
    LatestIsAppended(appended, f);
    var readings := AllReadings(ctx, FoundFor(ctx, f), f.messageId, f.channel);
    var source := UniqueSource(ctx, f).value;
    if g.ref != f.ref {
      assert Logical(g.ref.value) == source;
      if f.ref.Some? {
        AgreeingOnOne(readings, f.ref.value, f.ref.value);
        AgreeingOnOne(readings, f.ref.value, g.ref.value);
      } else {
        ReadingsAreBase(ctx, FoundFor(ctx, f), f.messageId, f.channel);
        assert readings[0] == source;
        assert Agreeing(readings[1..], g.ref) == [];
        assert Agreeing(readings, g.ref) == [g.ref.value];
      }
    }
  }

  lemma KeptAppend(still: seq<Carry>, c: Carry, k: nat)
    ensures Kept(still + [c], k) <==> Kept(still, k) || c.index == k
  {
    var more := still + [c];
    if j :| 0 <= j < |still| && still[j].index == k {
      assert more[j].index == k;
    }
    assert more[|still|] == c;
  }

  lemma ResolvedStep(sources: seq<Option<DeliveryRef>>, attempts: seq<Attempt>, n: nat)
    requires n < |sources| == |attempts|
    ensures ResolvedBy(sources, attempts, n + 1) ==
              ResolvedBy(sources, attempts, n)
              + (if sources[n].Some? && attempts[n].verdict.Resolved? then {sources[n].value} else {})
  {
    var before, after := ResolvedBy(sources, attempts, n), ResolvedBy(sources, attempts, n + 1);
    forall s | s in before ensures s in after {
      var i :| 0 <= i < n && sources[i] == Some(s) && attempts[i].verdict.Resolved?;
    }
  }

  lemma LogSkip(log: seq<Sent>, sources: seq<Option<DeliveryRef>>, attempts: seq<Attempt>, n: nat)
    requires n < |sources| == |attempts| && LogIs(log, sources, attempts, n) && !Dispatched(sources, attempts, n)
    ensures LogIs(log, sources, attempts, n + 1)
  {
    assert forall e :: Reports(e, sources, attempts, n + 1) <==> Reports(e, sources, attempts, n);
  }

  lemma LogAppend(log: seq<Sent>, sources: seq<Option<DeliveryRef>>, attempts: seq<Attempt>, n: nat)
    requires n < |sources| == |attempts| && LogIs(log, sources, attempts, n) && Dispatched(sources, attempts, n)
    ensures LogIs(log + [Sent(n, sources[n].value, attempts[n].verdict.Resolved?)], sources, attempts, n + 1)
  {
    var last := Sent(n, sources[n].value, attempts[n].verdict.Resolved?);
    forall e: Sent ensures Reports(e, sources, attempts, n + 1) <==> Reports(e, sources, attempts, n) || e == last {
      assert e == Sent(e.index, e.source, e.resolved);
    }
    forall i | 0 <= i < |log| ensures log[i].index < n {
      assert log[i] in log;
    }
  }

  /** A turn whose source is not sent adds nothing. */
  lemma SkipFollows(
    snapshot: seq<Failure>, attempts: seq<Attempt>, sources: seq<Option<DeliveryRef>>, i: nat,
    p: Progress, q: Progress)
    requires i < |snapshot| == |attempts| == |sources| && Follows(snapshot, attempts, sources, i, i, p)
    requires !Dispatched(sources, attempts, i)
    requires q.resolved == p.resolved && q.retried == p.retried && q.queue == p.queue && q.log == p.log
    ensures Follows(snapshot, attempts, sources, i + 1, i + 1, q)
  {
    ResolvedStep(sources, attempts, i);
    LogSkip(p.log, sources, attempts, i);
    assert Appended(sources, attempts, i) + [] == Appended(sources, attempts, i);
  }

  /** A sent source is logged, what the callee appended is queued, and it counts if it was resolved;
      a permission stop leaves the sources as they were. */
  lemma SendFollows(
    snapshot: seq<Failure>, attempts: seq<Attempt>, sources: seq<Option<DeliveryRef>>, i: nat,
    p: Progress, q: Progress)
    requires i < |snapshot| == |attempts| == |sources| && Follows(snapshot, attempts, sources, i, i, p)
    requires Dispatched(sources, attempts, i)
    requires q.queue == p.queue + attempts[i].appended
    requires q.log == p.log + [Sent(i, sources[i].value, attempts[i].verdict.Resolved?)]
    requires if attempts[i].verdict.Resolved? then q.resolved == p.resolved + {sources[i].value} && q.retried == p.retried + 1
             else q.resolved == p.resolved && q.retried == p.retried
    ensures Follows(snapshot, attempts, sources, i + 1, i + 1, q)
    ensures !attempts[i].verdict.Resolved? ==> Follows(snapshot, attempts, sources, i, i + 1, q)
  {
    ResolvedStep(sources, attempts, i);
    LogAppend(p.log, sources, attempts, i);
    var before, more := Appended(sources, attempts, i), attempts[i].appended;
    assert (snapshot + before) + more == snapshot + (before + more);
  }

  /** One turn follows the attempts. */
  lemma TurnFollows(
    snapshot: seq<Failure>, attempts: seq<Attempt>, sources: seq<Option<DeliveryRef>>, p: Progress, i: nat)
    requires i < |snapshot| == |attempts| == |sources| && Follows(snapshot, attempts, sources, i, i, p) && !p.halted
    ensures var q := Turn(p, i, snapshot[i], attempts[i], sources[i]);
            && (q.halted <==> HaltsAt(sources, attempts, i))
            && Follows(snapshot, attempts, sources, i + 1, i + 1, q)
            && (q.halted ==> Follows(snapshot, attempts, sources, i, i + 1, q))
  {
    var q := Turn(p, i, snapshot[i], attempts[i], sources[i]);
    if Dispatched(sources, attempts, i) {
      SendFollows(snapshot, attempts, sources, i, p, q);
    } else {
      SkipFollows(snapshot, attempts, sources, i, p, q);
    }
  }

  lemma KeepTurn(
    snapshot: seq<Failure>, attempts: seq<Attempt>, sources: seq<Option<DeliveryRef>>,
    p: Progress, i: nat, c: Failure, q: Progress)
    requires i < |snapshot| == |attempts| == |sources|
    requires CarriesOf(snapshot, attempts, sources, i, p.still) && Ascending(p.still) && AllAccounted(sources, i, p)
    requires CarriedFrom(snapshot[i], attempts[i], sources[i], c)
    requires q.still == p.still + [Carry(i, c)] && q.resolved == p.resolved
    ensures CarriesOf(snapshot, attempts, sources, i + 1, q.still) && Ascending(q.still)
    ensures AllAccounted(sources, i + 1, q)
  {
    forall k | 0 <= k < i + 1 ensures Kept(q.still, k) || Among(sources[k], q.resolved) {
      KeptAppend(p.still, Carry(i, c), k);
    }
    forall j | 0 <= j < |p.still| ensures p.still[j].index < i {
      assert p.still[j] in p.still;
    }
  }

  lemma TurnCarries(
    snapshot: seq<Failure>, attempts: seq<Attempt>, sources: seq<Option<DeliveryRef>>, p: Progress, i: nat)
    requires i < |snapshot| == |attempts| == |sources|
    requires CarriesOf(snapshot, attempts, sources, i, p.still) && Ascending(p.still) && AllAccounted(sources, i, p)
    requires !p.halted
    ensures var q := Turn(p, i, snapshot[i], attempts[i], sources[i]);
            !q.halted ==>
              && CarriesOf(snapshot, attempts, sources, i + 1, q.still) && Ascending(q.still)
              && AllAccounted(sources, i + 1, q)
  {
    var f, a, source := snapshot[i], attempts[i], sources[i];
    var q := Turn(p, i, f, a, source);
    if source.None? {
      KeepTurn(snapshot, attempts, sources, p, i, f, q);
    } else if source.value !in p.resolved {
      match a.verdict
      case Resolved =>
        assert AllAccounted(sources, i + 1, q);
      case Unresolved(error) =>
        KeepTurn(snapshot, attempts, sources, p, i, Bumped(f, a.appended, error), q);
      case Halted =>
    }
  }

  lemma TurnAccounted(
    snapshot: seq<Failure>, attempts: seq<Attempt>, sources: seq<Option<DeliveryRef>>, p: Progress, i: nat)
    requires i < |snapshot| == |attempts| == |sources| && Accounted(snapshot, attempts, sources, i, p) && !p.halted
    ensures var q := Turn(p, i, snapshot[i], attempts[i], sources[i]);
            if q.halted then Stopped(snapshot, attempts, sources, q) else Accounted(snapshot, attempts, sources, i + 1, q)
  {
    TurnFollows(snapshot, attempts, sources, p, i);
    TurnCarries(snapshot, attempts, sources, p, i);
    var q := Turn(p, i, snapshot[i], attempts[i], sources[i]);
    if q.halted {
      assert StopsAt(sources, attempts, i) && Follows(snapshot, attempts, sources, i, i + 1, q);
    }
  }

  lemma {:induction false} TurnsAccounted(
    snapshot: seq<Failure>, attempts: seq<Attempt>, sources: seq<Option<DeliveryRef>>, p: Progress, i: nat)
    requires i <= |snapshot| == |attempts| == |sources|
    requires Accounted(snapshot, attempts, sources, i, p) && !p.halted
    ensures var q := Turns(p, snapshot, attempts, sources, i);
            if q.halted then Stopped(snapshot, attempts, sources, q)
            else Accounted(snapshot, attempts, sources, |snapshot|, q)
    decreases |snapshot| - i
  {
    if i < |snapshot| {
      TurnAccounted(snapshot, attempts, sources, p, i);
      var q := Turn(p, i, snapshot[i], attempts[i], sources[i]);
      if !q.halted {
        TurnsAccounted(snapshot, attempts, sources, q, i + 1);
      }
    }
  }

  lemma StartAccounted(snapshot: seq<Failure>, attempts: seq<Attempt>, sources: seq<Option<DeliveryRef>>)
    requires |snapshot| == |attempts| == |sources|
    ensures Accounted(snapshot, attempts, sources, 0, Start(snapshot))
  {
    assert snapshot + [] == snapshot;
    assert ResolvedBy(sources, attempts, 0) == {};
  }

  /** Main result on what a retry does, from what the callee answered alone: it ends at the first
      permission stop among the dispatched records, a source is resolved exactly when an attempt for
      it was, the success count is the number of such sources, the log is that of the dispatches, and
      the live queue has grown by what the callee appended. */
  lemma RetryFollowsAttempts(ctx: Context, snapshot: seq<Failure>, attempts: seq<Attempt>)
    requires |attempts| == |snapshot|
    ensures var p, sources, n := Retry(ctx, snapshot, attempts), Dispatches(ctx, snapshot), |snapshot|;
            && (p.halted <==> exists h :: StopsAt(sources, attempts, h))
            && (p.halted <==> exists i :: 0 <= i < n && HaltsAt(sources, attempts, i))
            && if p.halted then Stopped(snapshot, attempts, sources, p)
               else Follows(snapshot, attempts, sources, n, n, p)
  {
    var sources := Dispatches(ctx, snapshot);
    StartAccounted(snapshot, attempts, sources);
    TurnsAccounted(snapshot, attempts, sources, Start(snapshot), 0);
  }

  /** What the caller of a retry sees of it, from the attempts alone. */
  lemma RetryOutcome(ctx: Context, snapshot: seq<Failure>, attempts: seq<Attempt>, sources: seq<Option<DeliveryRef>>)
    requires |attempts| == |snapshot| && sources == Dispatches(ctx, snapshot)
    ensures var p := Retry(ctx, snapshot, attempts);
            && (!p.halted <==> forall i :: 0 <= i < |sources| ==> !HaltsAt(sources, attempts, i))
            && (!p.halted ==> p.retried == |ResolvedBy(sources, attempts, |sources|)|)
            && (p.halted ==> exists h :: StopsAt(sources, attempts, h)
                                         && p.retried == |ResolvedBy(sources, attempts, h)|
                                         && p.queue == snapshot + Appended(sources, attempts, h + 1))
  {
    RetryFollowsAttempts(ctx, snapshot, attempts);
  }

  /** A carried record still names the source of the record it came from. */
  lemma CarriedKeepsSource(ctx: Context, snapshot: seq<Failure>, attempts: seq<Attempt>, cs: seq<Carry>, c: Carry)
    requires |snapshot| == |attempts| && HonestCallee(ctx, snapshot, attempts)
    requires CarriesOf(snapshot, attempts, Dispatches(ctx, snapshot), |snapshot|, cs) && c in cs
    ensures UniqueSource(ctx, c.record) == UniqueSource(ctx, snapshot[c.index])
  {
    var k := c.index;
    if c.record != snapshot[k] {
      BumpedKeepsSource(ctx, snapshot, attempts, k, attempts[k].verdict.error);
    }
  }

  /** The newest record that the callee appended for the message, when there is one. */
  lemma {:induction false} LatestIsNewest(appended: seq<Failure>, f: Failure)
    ensures Latest(appended, f).None? <==>
              forall i :: 0 <= i < |appended| ==> appended[i].messageId != f.messageId || appended[i].channel != f.channel
    ensures Latest(appended, f).Some? ==>
              exists i :: 0 <= i < |appended| && appended[i] == Latest(appended, f).value
                          && appended[i].messageId == f.messageId && appended[i].channel == f.channel
                          && forall j :: i < j < |appended| ==> appended[j].messageId != f.messageId || appended[j].channel != f.channel
    decreases |appended|
  {
    if appended != [] {
      var n := |appended| - 1;
      LatestIsNewest(appended[..n], f);
      assert forall i :: 0 <= i < n ==> appended[..n][i] == appended[i];
      if appended[n].messageId == f.messageId && appended[n].channel == f.channel {
        assert appended[n] == Latest(appended, f).value;
      }
    }
  }

  /** A record attempted without success keeps its identity, counts the attempt and takes error,
      preview and reference of the newest record the callee appended for it, or else the error of the
      attempt; any other carried record is unchanged. */
  lemma CarriedCountsAttempts(f: Failure, a: Attempt, source: Option<DeliveryRef>, c: Failure)
    requires CarriedFrom(f, a, source, c)
    ensures c.messageId == f.messageId && c.channel == f.channel
    ensures source.Some? && a.verdict.Unresolved? ==>
              && c.retryCount == f.retryCount + 1
              && var latest := Latest(a.appended, f);
                 if latest.None? then c.error == a.verdict.error && c.preview == f.preview && c.ref == f.ref
                 else
                   && c.error == latest.value.error && c.preview == latest.value.preview
                   && c.ref == (if latest.value.ref.Some? then latest.value.ref else f.ref)
    ensures !(source.Some? && a.verdict.Unresolved?) ==> c == f
  {
  }

  lemma {:induction false} RemainingAscends(ctx: Context, still: seq<Carry>, resolved: set<DeliveryRef>)
    requires Ascending(still)
    ensures Ascending(Remaining(ctx, still, resolved))
    decreases |still|
  {
    if still != [] {
      RemainingAscends(ctx, still[1..], resolved);
      var rest := Remaining(ctx, still[1..], resolved);
      forall j | 0 <= j < |rest| ensures still[0].index < rest[j].index {
        assert rest[j] in still[1..];
      }
    }
  }

  lemma RemainingKept(ctx: Context, still: seq<Carry>, resolved: set<DeliveryRef>, k: nat, gone: bool)
    requires forall c :: c in still && c.index == k ==> Settled(ctx, c.record, resolved) == gone
    ensures Kept(Remaining(ctx, still, resolved), k) <==> Kept(still, k) && !gone
  {
    var left := Remaining(ctx, still, resolved);
    if j :| 0 <= j < |still| && still[j].index == k {
      assert still[j] in still;
      if !gone {
        assert still[j] in left;
        var i :| 0 <= i < |left| && left[i] == still[j];
        assert Kept(left, k);
      }
    }
    if i :| 0 <= i < |left| && left[i].index == k {
      assert left[i] in still;
    }
  }

  /** A record is gone exactly when its unique logical source was resolved in this run. */
  lemma KeptExactly(ctx: Context, snapshot: seq<Failure>, attempts: seq<Attempt>, p: Progress, k: nat)
    requires k < |snapshot| == |attempts| && HonestCallee(ctx, snapshot, attempts)
    requires Accounted(snapshot, attempts, Dispatches(ctx, snapshot), |snapshot|, p)
    ensures Kept(Remaining(ctx, p.still, p.resolved), k) <==> !Settled(ctx, snapshot[k], p.resolved)
  {
    var gone := Settled(ctx, snapshot[k], p.resolved);
    forall c | c in p.still && c.index == k ensures Settled(ctx, c.record, p.resolved) == gone {
      CarriedKeepsSource(ctx, snapshot, attempts, p.still, c);
    }
    RemainingKept(ctx, p.still, p.resolved, k, gone);
    assert Kept(p.still, k) || Among(Dispatches(ctx, snapshot)[k], p.resolved);
  }

  /** Main result for a retry that ran to its end: what is left are records of the old queue in
      their old order, unchanged or attempted once more, and a record is gone exactly when an attempt
      resolved its unique logical source. */
  lemma RetryConserves(ctx: Context, snapshot: seq<Failure>, attempts: seq<Attempt>)
    requires |attempts| == |snapshot|
    requires !Retry(ctx, snapshot, attempts).halted
    requires HonestCallee(ctx, snapshot, attempts)
    ensures var p, sources := Retry(ctx, snapshot, attempts), Dispatches(ctx, snapshot);
            var left := Remaining(ctx, p.still, p.resolved);
            && CarriesOf(snapshot, attempts, sources, |snapshot|, left)
            && Ascending(left)
            && (forall k :: 0 <= k < |snapshot| ==>
                  (Kept(left, k) <==> !Among(UniqueSource(ctx, snapshot[k]), ResolvedBy(sources, attempts, |snapshot|))))
            && p.retried == |ResolvedBy(sources, attempts, |snapshot|)|
  {
    var sources := Dispatches(ctx, snapshot);
    StartAccounted(snapshot, attempts, sources);
    TurnsAccounted(snapshot, attempts, sources, Start(snapshot), 0);
    var p := Retry(ctx, snapshot, attempts);
    RemainingAscends(ctx, p.still, p.resolved);
    forall k | 0 <= k < |snapshot|
      ensures Kept(Remaining(ctx, p.still, p.resolved), k) <==> !Settled(ctx, snapshot[k], p.resolved)
    {
      KeptExactly(ctx, snapshot, attempts, p, k);
    }
  }

  /** No delivery that an attempt of this run resolved is dispatched after it, whether or not a
      permission stop ends the run, and such a stop loses no record. */
  lemma NoResolvedSourceIsSentAgain(ctx: Context, snapshot: seq<Failure>, attempts: seq<Attempt>)
    requires |attempts| == |snapshot|
    ensures var p, sources := Retry(ctx, snapshot, attempts), Dispatches(ctx, snapshot);
            && snapshot <= p.queue
            && (forall e, i :: e in p.log && 0 <= i < e.index && e.index < |sources| ==>
                  !(attempts[i].verdict.Resolved? && sources[i] == Some(e.source)))
  {
    RetryFollowsAttempts(ctx, snapshot, attempts);
  }

  // ----- which delivery is dispatched

  /** One reading of a failure: the `k`-th export message found for it, sent under this family, goes to
      the failure's channel, and is the delivery its reference names if it has one. */
  predicate Reads(ctx: Context, f: Failure, k: int, family: Family) {
    && f.messageId in ctx.found && 0 <= k < |ctx.found[f.messageId]|
    && var e := ctx.found[f.messageId][k];
       && (if family.Ordinary? then e.source in ctx.channelMap && ctx.channelMap[e.source] == f.channel
           else if family.Merged? then
             && e.isThread
             && (if e.category != "" then e.category in ctx.channelMap && ctx.channelMap[e.category] == f.channel
                 else e.parentName in ctx.parentNames && ctx.parentNames[e.parentName] == f.channel)
           else false)
       && (f.ref.None? || f.ref.value.(generation := Base) == DeliveryRef(e.source, f.messageId, f.channel, family, Base))
  }

  function Reading(ctx: Context, f: Failure, r: (int, Family)): DeliveryRef
    requires Reads(ctx, f, r.0, r.1)
  {
    DeliveryRef(ctx.found[f.messageId][r.0].source, f.messageId, f.channel, r.1, Base)
  }

  function ReadingsOf(ctx: Context, f: Failure, k: nat): (r: seq<(int, Family)>)
    requires k < |FoundFor(ctx, f)|
    ensures forall x :: x in r <==> Reads(ctx, f, x.0, x.1) && x.0 == k
    ensures NoDuplicates(r)
  {
    (if Reads(ctx, f, k, Ordinary) then [(k as int, Ordinary)] else [])
    + (if Reads(ctx, f, k, Merged) then [(k as int, Merged)] else [])
  }

  /** The readings among the first `n` messages found, in order. */
  function ReadingsUpTo(ctx: Context, f: Failure, n: nat): (r: seq<(int, Family)>)
    requires n <= |FoundFor(ctx, f)|
    ensures forall x :: x in r <==> Reads(ctx, f, x.0, x.1) && x.0 < n
    ensures NoDuplicates(r)
  {
    if n == 0 then []
    else
      ReadingsUpTo(ctx, f, n - 1) + ReadingsOf(ctx, f, n - 1)
  }

  lemma {:induction false} AllReadingsAppend(ctx: Context, a: seq<Found>, b: seq<Found>, messageId: string, channel: string)
    ensures AllReadings(ctx, a + b, messageId, channel) ==
              AllReadings(ctx, a, messageId, channel) + AllReadings(ctx, b, messageId, channel)
    decreases |a|
  {
    if a == [] {
      assert a + b == b;
    } else {
      assert (a + b)[1..] == a[1..] + b;
      AllReadingsAppend(ctx, a[1..], b, messageId, channel);
    }
  }

  lemma {:induction false} AgreeingAppend(a: seq<DeliveryRef>, b: seq<DeliveryRef>, recorded: Option<DeliveryRef>)
    ensures Agreeing(a + b, recorded) == Agreeing(a, recorded) + Agreeing(b, recorded)
    decreases |a|
  {
    if a == [] {
      assert a + b == b;
    } else {
      assert (a + b)[1..] == a[1..] + b;
      AgreeingAppend(a[1..], b, recorded);
    }
  }

  /** Candidates that are the given readings, one for one. */
  ghost predicate ReadAs(ctx: Context, f: Failure, c: seq<DeliveryRef>, r: seq<(int, Family)>)
    requires forall x :: x in r ==> Reads(ctx, f, x.0, x.1)
  {
    |c| == |r| && forall i :: 0 <= i < |r| ==> Logical(c[i]) == Reading(ctx, f, r[i])
  }

  lemma ReadAsAppend(ctx: Context, f: Failure, c: seq<DeliveryRef>, r: seq<(int, Family)>, d: seq<DeliveryRef>, q: seq<(int, Family)>)
    requires (forall x :: x in r ==> Reads(ctx, f, x.0, x.1)) && (forall x :: x in q ==> Reads(ctx, f, x.0, x.1))
    requires ReadAs(ctx, f, c, r) && ReadAs(ctx, f, d, q)
    ensures ReadAs(ctx, f, c + d, r + q)
  {
  }

  lemma CandidatesSplit(ctx: Context, f: Failure, front: seq<Found>, e: Found)
    ensures Agreeing(AllReadings(ctx, front + [e], f.messageId, f.channel), f.ref) ==
              Agreeing(AllReadings(ctx, front, f.messageId, f.channel), f.ref)
              + Agreeing(AllReadings(ctx, [e], f.messageId, f.channel), f.ref)
  {
    AllReadingsAppend(ctx, front, [e], f.messageId, f.channel);
    AgreeingAppend(AllReadings(ctx, front, f.messageId, f.channel), AllReadings(ctx, [e], f.messageId, f.channel), f.ref);
  }

  ghost predicate ReadUpTo(ctx: Context, f: Failure, fs: seq<Found>, n: nat)
    requires n <= |FoundFor(ctx, f)|
  {
    ReadAs(ctx, f, Agreeing(AllReadings(ctx, fs, f.messageId, f.channel), f.ref), ReadingsUpTo(ctx, f, n))
  }

  lemma ReadUpToStep(ctx: Context, f: Failure, front: seq<Found>, n: nat)
    requires n < |FoundFor(ctx, f)| && ReadUpTo(ctx, f, front, n)
    ensures ReadUpTo(ctx, f, front + [FoundFor(ctx, f)[n]], n + 1)
  {
    var e := FoundFor(ctx, f)[n];
    OneReading(ctx, f, n);
    var c, d := Agreeing(AllReadings(ctx, front, f.messageId, f.channel), f.ref),
                Agreeing(AllReadings(ctx, [e], f.messageId, f.channel), f.ref);
    ReadAsAppend(ctx, f, c, ReadingsUpTo(ctx, f, n), d, ReadingsOf(ctx, f, n));
    CandidatesSplit(ctx, f, front, e);
  }

  lemma {:induction false} CandidatesAreReadings(ctx: Context, f: Failure, fs: seq<Found>, n: nat)
    requires n <= |fs| && fs == FoundFor(ctx, f)
    ensures ReadUpTo(ctx, f, fs[..n], n)
    decreases n
  {
    if n > 0 {
      var front := fs[..n - 1];
      CandidatesAreReadings(ctx, f, fs, n - 1);
      ReadUpToStep(ctx, f, front, n - 1);
      assert fs[..n] == front + [fs[n - 1]];
    }
  }

  /** The readings of one message that agree with the reference, as the code finds them. */
  lemma OneFound(ctx: Context, f: Failure, e: Found)
    ensures var ordinary, merged := DeliveryRef(e.source, f.messageId, f.channel, Ordinary, Base),
                                    DeliveryRef(e.source, f.messageId, f.channel, Merged, Base);
            Agreeing(AllReadings(ctx, [e], f.messageId, f.channel), f.ref) ==
              (if Get(ctx.channelMap, e.source) == Some(f.channel) then Agreeing([ordinary], f.ref) else [])
              + (if e.isThread && ParentOf(ctx, e) == Some(f.channel) then Agreeing([merged], f.ref) else [])
  {
    assert [e][1..] == [];
    var a := if Get(ctx.channelMap, e.source) == Some(f.channel)
             then [DeliveryRef(e.source, f.messageId, f.channel, Ordinary, Base)] else [];
    var b := if e.isThread && ParentOf(ctx, e) == Some(f.channel)
             then [DeliveryRef(e.source, f.messageId, f.channel, Merged, Base)] else [];
    assert AllReadings(ctx, [e], f.messageId, f.channel) == a + b;
    AgreeingAppend(a, b, f.ref);
  }

  /** Candidates and readings of one family of one message. */
  lemma OneFamily(ctx: Context, f: Failure, k: nat, family: Family, leads: bool)
    requires k < |FoundFor(ctx, f)|
    requires var reading := DeliveryRef(FoundFor(ctx, f)[k].source, f.messageId, f.channel, family, Base);
             Reads(ctx, f, k, family) <==> leads && (f.ref.None? || Logical(f.ref.value) == reading)
    ensures var reading := DeliveryRef(FoundFor(ctx, f)[k].source, f.messageId, f.channel, family, Base);
            ReadAs(ctx, f, if leads then Agreeing([reading], f.ref) else [],
                   if Reads(ctx, f, k, family) then [(k as int, family)] else [])
  {
    AgreeingSingle(DeliveryRef(FoundFor(ctx, f)[k].source, f.messageId, f.channel, family, Base), f.ref);
  }

  lemma OneReading(ctx: Context, f: Failure, k: nat)
    requires k < |FoundFor(ctx, f)|
    ensures ReadAs(ctx, f, Agreeing(AllReadings(ctx, [FoundFor(ctx, f)[k]], f.messageId, f.channel), f.ref), ReadingsOf(ctx, f, k))
  {
    var e := FoundFor(ctx, f)[k];
    var toChannel, toParent := Get(ctx.channelMap, e.source) == Some(f.channel), e.isThread && ParentOf(ctx, e) == Some(f.channel);
    OneFamily(ctx, f, k, Ordinary, toChannel);
    OneFamily(ctx, f, k, Merged, toParent);
    OneFound(ctx, f, e);
    ReadAsAppend(ctx, f,
      if toChannel then Agreeing([DeliveryRef(e.source, f.messageId, f.channel, Ordinary, Base)], f.ref) else [],
      if Reads(ctx, f, k, Ordinary) then [(k as int, Ordinary)] else [],
      if toParent then Agreeing([DeliveryRef(e.source, f.messageId, f.channel, Merged, Base)], f.ref) else [],
      if Reads(ctx, f, k, Merged) then [(k as int, Merged)] else []);
  }

  lemma AgreeingSingle(r: DeliveryRef, recorded: Option<DeliveryRef>)
    ensures Agreeing([r], recorded) ==
              if recorded.None? then [r] else if Logical(recorded.value) == r then [recorded.value] else []
  {
    assert [r][1..] == [];
  }

  /** A failure is dispatched, under a delivery, exactly when its channel is one the migration made and
      it has this one reading. */
  lemma DispatchExactly(ctx: Context, f: Failure, s: DeliveryRef)
    ensures UniqueSource(ctx, f) == Some(s) <==> OnlyReading(ctx, f, s)
    ensures DispatchSource(ctx, f) == Some(s) <==>
              (exists source :: source in ctx.channelMap && ctx.channelMap[source] == f.channel) && OnlyReading(ctx, f, s)
  {
    var n := |FoundFor(ctx, f)|;
    var r := ReadingsUpTo(ctx, f, n);
    CandidatesAreReadings(ctx, f, FoundFor(ctx, f), n);
    assert FoundFor(ctx, f)[..n] == FoundFor(ctx, f);
    assert |Candidates(ctx, f)| == |r|;
    if UniqueSource(ctx, f) == Some(s) {
      assert r[0] in r && Reading(ctx, f, r[0]) == s;
      forall x: (int, Family) | Reads(ctx, f, x.0, x.1) ensures x == r[0] {
        assert x in r;
      }
      assert OnlyReading(ctx, f, s);
    }
    if OnlyReading(ctx, f, s) {
      var x: (int, Family) :| Reads(ctx, f, x.0, x.1) && Reading(ctx, f, x) == s
                              && forall y: (int, Family) :: Reads(ctx, f, y.0, y.1) ==> y == x;
      assert x in r;
      assert ToSet(r) == {x};
      NoDuplicatesLength(r);
    }
  }

  ghost predicate OnlyReading(ctx: Context, f: Failure, s: DeliveryRef) {
    exists x: (int, Family) :: Reads(ctx, f, x.0, x.1) && Reading(ctx, f, x) == s
                               && forall y: (int, Family) :: Reads(ctx, f, y.0, y.1) ==> y == x
  }
}
