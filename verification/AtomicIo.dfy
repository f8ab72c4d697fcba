/** `core/atomicio.py`: a document is replaced whole, with a bounded retry of the final swap. */
module AtomicIo {
  import opened Common

  const REPLACE_ATTEMPTS := 5

  /** One answer of the operating system to `os.replace`. */
  datatype Swap = Swapped | Denied | Broken

  /** Sleep before a swap, in units of the first delay of 0.05 s. */
  function Backoff(attempts: nat): nat {
    if attempts == 0 then 0 else 2 * Backoff(attempts - 1) + 1
  }

  /** Whether a swap is tried again, as long as attempts are left. */
  predicate Retried(windows: bool, swaps: nat -> Swap, j: nat) {
    swaps(j) == Denied && windows
  }

  ghost predicate RetriedBefore(windows: bool, swaps: nat -> Swap, k: nat) {
    forall j: nat :: j < k ==> Retried(windows, swaps, j)
  }

  /** The swap that ends the retry loop: the first that is not a retried denial. */
  ghost predicate EndsAt(windows: bool, swaps: nat -> Swap, k: nat) {
    && k < REPLACE_ATTEMPTS
    && RetriedBefore(windows, swaps, k)
    && (Retried(windows, swaps, k) ==> k == REPLACE_ATTEMPTS - 1)
  }

  /** Retries only a denial, only on Windows, at most five times in all, doubling the delay. */
  method ReplaceWithRetry(windows: bool, swaps: nat -> Swap) returns (ok: bool, last: nat, slept: nat)
    ensures EndsAt(windows, swaps, last)
    ensures last < 5 && (last > 0 ==> windows) && forall j: nat :: j < last ==> swaps(j) == Denied
    ensures swaps(last) == Denied && windows ==> last == 4
    ensures slept == [0, 1, 3, 7, 15][last]
    ensures ok <==> swaps(last) == Swapped
    ensures slept == Backoff(last) <= 15
    ensures ok <==> exists k: nat :: EndsAt(windows, swaps, k) && swaps(k) == Swapped
  {
    var delay := 1;
    slept := 0;
    last := 0;
    while true
      invariant last < REPLACE_ATTEMPTS
      invariant RetriedBefore(windows, swaps, last)
      invariant slept == Backoff(last) && delay == slept + 1
      decreases REPLACE_ATTEMPTS - last
    {
      if swaps(last) == Swapped {
        assert EndsAt(windows, swaps, last);
        RetriedAreDenied(windows, swaps, last);
        BackoffBound(last);
        return true, last, slept;
      }
      if swaps(last) == Broken || !windows || last == REPLACE_ATTEMPTS - 1 {
        assert EndsAt(windows, swaps, last);
        RetriedAreDenied(windows, swaps, last);
        BackoffBound(last);
        OneEnd(windows, swaps, last);
        return false, last, slept;
      }
      slept := slept + delay;
      delay := delay * 2;
      last := last + 1;
    }
  }

  lemma RetriedAreDenied(windows: bool, swaps: nat -> Swap, k: nat)
    requires RetriedBefore(windows, swaps, k)
    ensures k > 0 ==> windows
    ensures forall j: nat :: j < k ==> swaps(j) == Denied
  {
    assert k > 0 ==> Retried(windows, swaps, 0);
    forall j: nat | j < k ensures swaps(j) == Denied {
      assert Retried(windows, swaps, j);
    }
  }

  lemma OneEnd(windows: bool, swaps: nat -> Swap, k: nat)
    requires EndsAt(windows, swaps, k)
    ensures forall j: nat :: EndsAt(windows, swaps, j) ==> j == k
  {
    forall j: nat | EndsAt(windows, swaps, j) ensures j == k {
      assert j < k ==> Retried(windows, swaps, j);
      assert k < j ==> Retried(windows, swaps, k);
    }
  }

  /** The delays of all five attempts together stay within 0.75 s. */
  lemma BackoffBound(k: nat)
    requires k < REPLACE_ATTEMPTS
    ensures Backoff(k) <= 15 && Backoff(k) == [0, 1, 3, 7, 15][k]
  {
    assert Backoff(1) == 1 && Backoff(2) == 3 && Backoff(3) == 7;
    assert Backoff(4) == 15;
  }

  /** One of the first five swaps succeeds and all before it are denied; off Windows, the first does. */
  ghost predicate SwappedInTime(windows: bool, swaps: nat -> Swap) {
    if windows then exists k: nat :: k < 5 && swaps(k) == Swapped && forall j: nat :: j < k ==> swaps(j) == Denied
    else swaps(0) == Swapped
  }

  lemma SwappedExactly(windows: bool, swaps: nat -> Swap)
    ensures (exists k: nat :: EndsAt(windows, swaps, k) && swaps(k) == Swapped) <==> SwappedInTime(windows, swaps)
  {
    if k: nat :| EndsAt(windows, swaps, k) && swaps(k) == Swapped {
      RetriedAreDenied(windows, swaps, k);
      assert !windows ==> k == 0;
    }
    if windows {
      if k: nat :| k < 5 && swaps(k) == Swapped && forall j: nat :: j < k ==> swaps(j) == Denied {
        assert EndsAt(windows, swaps, k);
      }
    } else if swaps(0) == Swapped {
      assert EndsAt(windows, swaps, 0);
    }
  }

  /** What happens to one write: how much of the text reaches the temporary file before the write
      breaks, if it does, and whether the temporary file can be removed afterwards. */
  datatype Weather = Weather(written: Option<nat>, windows: bool, swaps: nat -> Swap, cleanupFails: bool)

  class Folder {
    var files: map<string, string>
    ghost var trace: seq<map<string, string>>

    constructor (initial: map<string, string>)
      ensures files == initial && trace == [initial]
    {
      files, trace := initial, [initial];
    }

    method Put(name: string, text: string)
      modifies this
      ensures files == old(files)[name := text] && trace == old(trace) + [files]
    {
      files := files[name := text];
      trace := trace + [files];
    }
  }

  /** Nothing but the temporary file differs from one of the two complete folders. */
  ghost predicate OldOrNew(now: map<string, string>, before: map<string, string>, path: string, text: string, tmp: string) {
    now - {tmp} == before || now == before[path := text]
  }

  /** Every state of the folder, at any moment a crash can strike, shows the target wholly old or
      wholly new and every other file untouched; the call reports which it is. */
  method AtomicWriteText(folder: Folder, path: string, text: string, tmp: string, weather: Weather) returns (ok: bool)
    requires tmp !in folder.files && tmp != path
    modifies folder
    ensures old(folder.trace) <= folder.trace
    ensures forall i :: |old(folder.trace)| <= i < |folder.trace| ==>
              OldOrNew(folder.trace[i], old(folder.files), path, text, tmp)
    ensures ok ==> folder.files == old(folder.files)[path := text]
    ensures !ok ==> folder.files - {tmp} == old(folder.files)
    ensures !ok && !weather.cleanupFails ==> folder.files == old(folder.files)
    ensures ok <==> weather.written.None? && exists k: nat :: EndsAt(weather.windows, weather.swaps, k) && weather.swaps(k) == Swapped
    ensures ok <==> weather.written.None? && SwappedInTime(weather.windows, weather.swaps)
  {
    ghost var before := folder.files;
    SwappedExactly(weather.windows, weather.swaps);
    folder.Put(tmp, "");
    assert folder.files - {tmp} == before;
    if weather.written.Some? {
      folder.Put(tmp, if weather.written.value <= |text| then text[..weather.written.value] else text);
      ok := false;
    } else {
      folder.Put(tmp, text);
      var last, slept;
      ok, last, slept := ReplaceWithRetry(weather.windows, weather.swaps);
    }
    assert folder.files - {tmp} == before;
    if ok {
      folder.files := (folder.files - {tmp})[path := text];
      folder.trace := folder.trace + [folder.files];
    } else if !weather.cleanupFails {
      folder.files := folder.files - {tmp};
      folder.trace := folder.trace + [folder.files];
      assert before - {tmp} == before;
    }
  }
}
