/** DeviceConnectionManager: a registry that gives every reader (ip:port) its own one-permit
    semaphore, runs each operation while holding that permit, retries failed attempts, and
    offers administrative operations that release, sweep and dispose the permits.

    The model is sequential. Waiting for a permit that is taken, a cancellation token that
    fires, and what each attempt of the caller's operation does are inputs: a wait on a taken
    permit is reported as WouldBlock instead of suspending the caller. */
module ConnectionManager {
  import opened Common
  import opened Text
  import opened Settings

  // ---------------------------------------------------------------------------------------
  // Device key

  /** GetDeviceKey: the literal text $"{ipAddress}:{port}", with no trimming or case folding. */
  function DeviceKey(ip: string, port: int): (key: string)
    ensures |key| > |ip| + 1 && key[..|ip|] == ip && key[|ip|] == ':'
    ensures ':' !in key[|ip| + 1..]
    ensures ParseDecimal(key[|ip| + 1..]) == Some(port)
  {
    IntToStringRoundTrip(port);
    assert (ip + ":" + IntToString(port))[|ip| + 1..] == IntToString(port);
    ip + ":" + IntToString(port)
  }

  /** Two calls give the same key exactly when they name the same ip text and port; in
      particular addresses that differ only in letter case get different slots. */
  lemma DeviceKeyInjective(ip1: string, port1: int, ip2: string, port2: int)
    ensures DeviceKey(ip1, port1) == DeviceKey(ip2, port2) <==> ip1 == ip2 && port1 == port2
  {
    var k1, k2 := DeviceKey(ip1, port1), DeviceKey(ip2, port2);
    if k1 == k2 {
      assert ip1 == k1[..|ip1|];
    }
  }

  // ---------------------------------------------------------------------------------------
  // The one-permit semaphore of a reader

  datatype WaitResult = Acquired | WouldBlock | WaitFailed(error: Exc)

  /** DeviceSemaphore wrapping SemaphoreSlim(1, 1): a permit count that is 0 or 1. */
  class Slot {
    var count: int
    var disposed: bool

    ghost predicate Valid()
      reads this
    {
      0 <= count <= 1
    }

    /** new SemaphoreSlim(1, 1): one permit, available. */
    constructor()
      ensures Valid() && count == 1 && !disposed
    {
      count := 1;
      disposed := false;
    }

    /** WaitAsync(token): a disposed semaphore throws, a cancelled token throws, a taken
        permit makes the caller wait, and a free permit is taken. */
    method Wait(cancelled: bool) returns (r: WaitResult)
      requires Valid()
      modifies this`count
      ensures Valid()
      ensures disposed ==> r == WaitFailed(ObjectDisposed) && count == old(count)
      ensures !disposed && cancelled ==> r == WaitFailed(Canceled(true)) && count == old(count)
      ensures !disposed && !cancelled && old(count) == 0 ==> r == WouldBlock && count == 0
      ensures !disposed && !cancelled && old(count) == 1 ==> r == Acquired && count == 0
    {
      if disposed {
        r := WaitFailed(ObjectDisposed);
      } else if cancelled {
        r := WaitFailed(Canceled(true));
      } else if count == 0 {
        r := WouldBlock;
      } else {
        count := count - 1;
        r := Acquired;
      }
    }

    /** Release(): a disposed semaphore throws, a full one (maximum count 1) throws
        SemaphoreFullException, otherwise the permit is returned. */
    method Release() returns (error: Option<Exc>)
      requires Valid()
      modifies this`count
      ensures Valid()
      ensures disposed ==> error == Some(ObjectDisposed) && count == old(count)
      ensures !disposed && old(count) == 1 ==> error == Some(SemaphoreFull) && count == 1
      ensures !disposed && old(count) == 0 ==> error == None && count == 1
    {
      if disposed {
        error := Some(ObjectDisposed);
      } else if count == 1 {
        error := Some(SemaphoreFull);
      } else {
        count := count + 1;
        error := None;
      }
    }

    /** Dispose(): may be called any number of times. */
    method Dispose()
      modifies this`disposed
      ensures disposed
    {
      disposed := true;
    }
  }

  // ---------------------------------------------------------------------------------------
  // What the caller's operation and the environment do

  /** One pass of the retry loop: whether the token reports cancellation at the check before
      the attempt, what operation(device) does, and whether the token is cancelled before or
      during the delay that follows a failed attempt. */
  datatype Attempt<T> = Attempt(cancelledBefore: bool, result: Outcome<T>, delayCancelled: bool)

  /** Everything Execute cannot decide itself: whether the wait is cancelled, whether the
      device factory throws, and what happens on each attempt (indexed from 0). */
  datatype Env<T> = Env(waitCancelled: bool, factoryError: Option<Exc>, attempts: nat -> Attempt<T>)

  /** How a piece of held work ends: it finishes, or it waits forever in Task.Delay(-1). */
  datatype RunOutcome<T> = Finished(outcome: Outcome<T>) | Hangs

  datatype RetryResult<T> = RetryResult(outcome: RunOutcome<T>, runs: nat, delays: nat)

  datatype DelayResult = Elapsed | DelayFailed(error: Exc) | Forever

  /** Task.Delay(ms, token): a value below -1 is rejected, a cancelled token ends the delay
      with a cancellation, -1 never ends by itself, any other value elapses. */
  function Delay(ms: int, cancelled: bool): (r: DelayResult)
    ensures r == Forever <==> ms == -1 && !cancelled
    ensures r == Elapsed <==> ms >= 0 && !cancelled
    ensures r.DelayFailed? && r.error.ArgumentOutOfRange? <==> ms < -1
  {
    if ms < -1 then DelayFailed(ArgumentOutOfRange("millisecondsDelay"))
    else if cancelled then DelayFailed(Canceled(true))
    else if ms == -1 then Forever
    else Elapsed
  }

  function ExhaustedMessage(key: string, n: int): string {
    "Operacja na czytniku " + key + " nieudana po " + IntToString(n) + " próbach"
  }

  function TimeoutMessage(key: string, minutes: int): string {
    "Operacja na czytniku " + key + " przekroczyła limit czasu " + IntToString(minutes) + " minut"
  }

  /** An exception the retry loop catches: anything but OperationCanceledException. */
  predicate Retried<T>(r: Outcome<T>) {
    r.Throws? && !r.error.Canceled?
  }

  /** ExecuteWithRetryAsync from loop head `attempt`, with `last` the most recent caught
      exception and `delays` the delays completed so far. */
  function RetryFrom<T>(key: string, n: int, delayMs: int, attempts: nat -> Attempt<T>,
                        attempt: nat, last: Option<Exc>, delays: nat): (r: RetryResult<T>)
    decreases n - attempt
  {
    if attempt >= n then
      RetryResult(Finished(Throws(last.GetOr(InvalidOperation(ExhaustedMessage(key, n))))), attempt, delays)
    else
      var a := attempts(attempt);
      if a.cancelledBefore then RetryResult(Finished(Throws(Canceled(true))), attempt, delays)
      else if !Retried(a.result) then RetryResult(Finished(a.result), attempt + 1, delays)
      else if attempt + 1 < n then
        match Delay(delayMs, a.delayCancelled)
        case DelayFailed(e) => RetryResult(Finished(Throws(e)), attempt + 1, delays)
        case Forever => RetryResult(Hangs, attempt + 1, delays)
        case Elapsed => RetryFrom(key, n, delayMs, attempts, attempt + 1, Some(a.result.error), delays + 1)
      else RetryFrom(key, n, delayMs, attempts, attempt + 1, Some(a.result.error), delays)
  }

  /** The whole retry loop, started at attempt 0. */
  function Retry<T>(key: string, s: DeviceSettings, attempts: nat -> Attempt<T>): RetryResult<T> {
    RetryFrom(key, s.retryAttempts, s.RetryDelayMilliseconds(), attempts, 0, None, 0)
  }

  /** The catch clauses at the end of the held work: a cancellation seen while the caller's
      token is cancelled becomes a TimeoutException, everything else is rethrown as it is. */
  function Surface(e: Exc, key: string, minutes: int): (r: Exc)
    ensures r.Timeout? <==> e.Timeout? || e == Canceled(true)
    ensures e != Canceled(true) ==> r == e
  {
    if e == Canceled(true) then Timeout(TimeoutMessage(key, minutes)) else e
  }

  function SurfaceRun<T>(r: RunOutcome<T>, key: string, minutes: int): RunOutcome<T> {
    match r
    case Finished(Throws(e)) => Finished(Throws(Surface(e, key, minutes)))
    case _ => r
  }

  /** What the work done while holding the permit ends with: build a device, run the retry
      loop, translate the exception. */
  function Held<T>(key: string, s: DeviceSettings, env: Env<T>): RunOutcome<T> {
    match env.factoryError
    case Some(e) => Finished(Throws(Surface(e, key, s.connectionTimeoutMinutes)))
    case None => SurfaceRun(Retry(key, s, env.attempts).outcome, key, s.connectionTimeoutMinutes)
  }

  // ---------------------------------------------------------------------------------------
  // Properties of the retry loop

  lemma {:induction false} RetryBounds<T>(key: string, n: int, delayMs: int, attempts: nat -> Attempt<T>,
                                          attempt: nat, last: Option<Exc>, delays: nat)
    requires attempt <= n || attempt == 0
    requires delays <= attempt
    ensures var r := RetryFrom(key, n, delayMs, attempts, attempt, last, delays);
      r.runs <= (if n > 0 then n else 0) && r.delays <= r.runs
    decreases n - attempt
  {
    if attempt < n {
      var a := attempts(attempt);
      if !a.cancelledBefore && Retried(a.result) {
        RetryBounds(key, n, delayMs, attempts, attempt + 1, Some(a.result.error), delays + 1);
        RetryBounds(key, n, delayMs, attempts, attempt + 1, Some(a.result.error), delays);
      }
    }
  }

  /** The operation runs at most RetryAttempts times, and no more delays are taken than
      there were runs. */
  lemma RetryRunsAtMostN<T>(key: string, s: DeviceSettings, attempts: nat -> Attempt<T>)
    ensures var r := Retry(key, s, attempts);
      r.runs <= (if s.retryAttempts > 0 then s.retryAttempts else 0) && r.delays <= r.runs
  {
    RetryBounds(key, s.retryAttempts, s.RetryDelayMilliseconds(), attempts, 0, None, 0);
  }

  /** With RetryAttempts <= 0 the operation never runs and InvalidOperationException is thrown. */
  lemma RetryNonPositive<T>(key: string, s: DeviceSettings, attempts: nat -> Attempt<T>)
    requires s.retryAttempts <= 0
    ensures Retry(key, s, attempts)
      == RetryResult(Finished(Throws(InvalidOperation(ExhaustedMessage(key, s.retryAttempts)))), 0, 0)
  {
  }

  /** Attempts before index j that fail with an ordinary exception while the token stays quiet. */
  predicate PlainFailuresBefore<T>(attempts: nat -> Attempt<T>, j: nat) {
    forall i: nat | i < j :: !attempts(i).cancelledBefore && Retried(attempts(i).result)
                             && !attempts(i).delayCancelled
  }

  /** Plain failures before j < N lead from any loop head to the head of attempt j, with one
      completed delay per failed attempt. */
  lemma {:induction false} PlainFailuresFrom<T>(key: string, n: int, delayMs: int, attempts: nat -> Attempt<T>,
                                                attempt: nat, last: Option<Exc>, j: nat)
    requires attempt <= j < n && delayMs >= 0
    requires PlainFailuresBefore(attempts, j)
    ensures RetryFrom(key, n, delayMs, attempts, attempt, last, attempt)
         == RetryFrom(key, n, delayMs, attempts, j, if j == attempt then last else Some(attempts(j - 1).result.error), j)
    decreases j - attempt
  {
    if attempt < j {
      var a := attempts(attempt);
      assert !a.cancelledBefore && Retried(a.result) && !a.delayCancelled;
      PlainFailuresFrom(key, n, delayMs, attempts, attempt + 1, Some(a.result.error), j);
    }
  }

  /** A persistently failing operation runs exactly N times with N-1 delays, and the last
      exception is rethrown. */
  lemma RetryPersistentFailure<T>(key: string, s: DeviceSettings, attempts: nat -> Attempt<T>)
    requires s.retryAttempts >= 1 && s.RetryDelayMilliseconds() >= 0
    requires PlainFailuresBefore(attempts, s.retryAttempts)
    ensures Retry(key, s, attempts)
      == RetryResult(Finished(attempts(s.retryAttempts - 1).result), s.retryAttempts, s.retryAttempts - 1)
  {
    var n := s.retryAttempts;
    PlainFailuresFrom(key, n, s.RetryDelayMilliseconds(), attempts, 0, None, n - 1);
    assert !attempts(n - 1).cancelledBefore && Retried(attempts(n - 1).result);
  }

  /** The first attempt that does not fail with an ordinary exception ends the loop: a success
      is returned as it is, after exactly that many runs and one delay fewer. */
  lemma RetryFirstSuccess<T>(key: string, s: DeviceSettings, attempts: nat -> Attempt<T>, j: nat)
    requires j < s.retryAttempts && s.RetryDelayMilliseconds() >= 0
    requires PlainFailuresBefore(attempts, j)
    requires !attempts(j).cancelledBefore && attempts(j).result.Returns?
    ensures Retry(key, s, attempts) == RetryResult(Finished(attempts(j).result), j + 1, j)
  {
    PlainFailuresFrom(key, s.retryAttempts, s.RetryDelayMilliseconds(), attempts, 0, None, j);
  }

  /** A cancellation is never counted as an attempt: seen at the check before attempt j it ends
      the loop after j runs; thrown by the operation it is passed on unchanged. */
  lemma RetryCancellationNotCounted<T>(key: string, s: DeviceSettings, attempts: nat -> Attempt<T>, j: nat)
    requires j < s.retryAttempts && s.RetryDelayMilliseconds() >= 0
    requires PlainFailuresBefore(attempts, j)
    requires attempts(j).cancelledBefore || (attempts(j).result.Throws? && attempts(j).result.error.Canceled?)
    ensures Retry(key, s, attempts).runs == (if attempts(j).cancelledBefore then j else j + 1)
    ensures Retry(key, s, attempts).outcome ==
      Finished(if attempts(j).cancelledBefore then Throws(Canceled(true)) else attempts(j).result)
  {
    PlainFailuresFrom(key, s.retryAttempts, s.RetryDelayMilliseconds(), attempts, 0, None, j);
  }

  /** A cancelled token is reported to the caller as a TimeoutException naming the reader and
      the configured minutes; an OperationCanceledException seen while the token is not
      cancelled, and every other exception, reach the caller unchanged. */
  lemma HeldCancellationIsTimeout<T>(key: string, s: DeviceSettings, env: Env<T>)
    requires env.factoryError.None? && s.retryAttempts >= 1 && env.attempts(0).cancelledBefore
    ensures Held(key, s, env) == Finished(Throws(Timeout(TimeoutMessage(key, s.connectionTimeoutMinutes))))
  {
  }

  /** A KeyNotFoundException thrown by the operation is an ordinary failure: it is retried
      RetryAttempts times and then reaches the caller, not translated. */
  lemma HeldRetriesKeyNotFound<T>(key: string, s: DeviceSettings, env: Env<T>, message: string)
    requires env.factoryError.None? && s.retryAttempts >= 1 && s.RetryDelayMilliseconds() >= 0
    requires forall i: nat | i < s.retryAttempts :: env.attempts(i) == Attempt(false, Throws(KeyNotFound(message)), false)
    ensures Retry(key, s, env.attempts).runs == s.retryAttempts
    ensures Held(key, s, env) == Finished(Throws(KeyNotFound(message)))
  {
    RetryPersistentFailure(key, s, env.attempts);
  }

  // ---------------------------------------------------------------------------------------
  // The manager

  datatype EnterResult = Entered(slot: Slot) | Blocked | EnterFailed(error: Exc)

  datatype ExecResult<T> = Done(outcome: Outcome<T>) | WaitsForPermit | Stuck

  class Manager {
    const settings: DeviceSettings
    var slots: map<string, Slot>
    var disposed: bool
    /** How many times the device factory has been called. */
    var devicesBuilt: nat

    /** Every registered semaphore is a live SemaphoreSlim(1, 1), and no semaphore is
        registered under two keys. */
    ghost predicate Valid()
      reads this, slots.Values
    {
      (forall k | k in slots :: slots[k].Valid() && !slots[k].disposed)
      && (forall k1, k2 | k1 in slots && k2 in slots && k1 != k2 :: slots[k1] != slots[k2])
    }

    ghost function Counts(): map<string, int>
      reads this, slots.Values
    {
      map k | k in slots :: slots[k].count
    }

    constructor(settings: DeviceSettings)
      ensures Valid() && this.settings == settings
      ensures slots == map[] && !disposed && devicesBuilt == 0
    {
      this.settings := settings;
      slots := map[];
      disposed := false;
      devicesBuilt := 0;
    }

    /** GetOrCreateDeviceSemaphore: the registered semaphore when the key is known, otherwise a
        new free one that is registered under the key. */
    method GetOrCreateSlot(key: string) returns (s: Slot)
      requires Valid()
      modifies this`slots
      ensures Valid() && key in slots && s == slots[key]
      ensures old(key in slots) ==> s == old(slots[key]) && slots == old(slots)
      ensures old(key !in slots) ==> fresh(s) && slots == old(slots)[key := s] && s.count == 1
    {
      if key in slots {
        s := slots[key];
      } else {
        s := new Slot();
        slots := slots[key := s];
      }
    }

    /** GetPendingOperationsCount: 1 while the reader's permit is taken, 0 when it is free or
        the reader has no semaphore. */
    function PendingOperations(ip: string, port: int): (n: int)
      reads this, slots.Values
      ensures n == 0 || n == 1
      ensures n == 1 <==> DeviceKey(ip, port) in slots && slots[DeviceKey(ip, port)].count == 0
    {
      var key := DeviceKey(ip, port);
      if key in slots && slots[key].count == 0 then 1 else 0
    }

    /** The first steps of ExecuteDeviceOperationAsync: look up or create the device's
        semaphore, then wait on it for its permit. The wait lies outside the try block. */
    method Enter(ip: string, port: int, cancelled: bool) returns (r: EnterResult)
      requires Valid()
      modifies this`slots, if DeviceKey(ip, port) in slots then {slots[DeviceKey(ip, port)]} else {}
      ensures Valid()
      ensures DeviceKey(ip, port) in slots
      ensures old(DeviceKey(ip, port) in slots) ==> slots == old(slots)
      ensures old(DeviceKey(ip, port) !in slots) ==>
        slots.Keys == old(slots.Keys) + {DeviceKey(ip, port)} && fresh(slots[DeviceKey(ip, port)])
      ensures forall k | k in old(slots) :: k in slots && slots[k] == old(slots[k])
      ensures forall k | k in old(slots) && k != DeviceKey(ip, port) :: slots[k].count == old(slots[k].count)
      ensures var k := DeviceKey(ip, port);
        var before := if old(k in slots) then old(slots[k].count) else 1;
        if cancelled then r == EnterFailed(Canceled(true)) && slots[k].count == before
        else if before == 0 then r == Blocked && slots[k].count == 0
        else r == Entered(slots[k]) && slots[k].count == 0
    {
      var key := DeviceKey(ip, port);
      var s := GetOrCreateSlot(key);
      var w := s.Wait(cancelled);
      match w
      case Acquired => r := Entered(s);
      case WouldBlock => r := Blocked;
      case WaitFailed(e) => r := EnterFailed(e);
    }

    /** The try block of ExecuteDeviceOperationAsync with its catches: build one device and run
        the retry loop while holding the permit. */
    method RunHeld<T>(key: string, env: Env<T>) returns (r: RunOutcome<T>)
      modifies this`devicesBuilt
      ensures devicesBuilt == old(devicesBuilt) + 1
      ensures r == Held(key, settings, env)
    {
      devicesBuilt := devicesBuilt + 1;
      match env.factoryError {
        case Some(e) =>
          r := Finished(Throws(Surface(e, key, settings.connectionTimeoutMinutes)));
        case None =>
          var rr := ExecuteWithRetry(key, env.attempts);
          r := SurfaceRun(rr.outcome, key, settings.connectionTimeoutMinutes);
      }
    }

    /** ExecuteWithRetryAsync: the while loop over attempts. */
    method ExecuteWithRetry<T>(key: string, attempts: nat -> Attempt<T>) returns (r: RetryResult<T>)
      ensures r == Retry(key, settings, attempts)
    {
      var n := settings.retryAttempts;
      var delayMs := settings.RetryDelayMilliseconds();
      var attempt: nat := 0;
      var last: Option<Exc> := None;
      var delays: nat := 0;
      while attempt < n
        invariant attempt <= n || attempt == 0
        invariant RetryFrom(key, n, delayMs, attempts, attempt, last, delays)
               == RetryFrom(key, n, delayMs, attempts, 0, None, 0)
        decreases n - attempt
      {
        var a := attempts(attempt);
        if a.cancelledBefore {
          return RetryResult(Finished(Throws(Canceled(true))), attempt, delays);
        }
        if !Retried(a.result) {
          return RetryResult(Finished(a.result), attempt + 1, delays);
        }
        last := Some(a.result.error);
        attempt := attempt + 1;
        if attempt < n {
          var d := Delay(delayMs, a.delayCancelled);
          match d {
            case DelayFailed(e) => return RetryResult(Finished(Throws(e)), attempt, delays);
            case Forever => return RetryResult(Hangs, attempt, delays);
            case Elapsed => delays := delays + 1;
          }
        }
      }
      r := RetryResult(Finished(Throws(last.GetOr(InvalidOperation(ExhaustedMessage(key, n))))), attempt, delays);
    }

    /** The finally block (line 77): return the permit. An exception thrown by Release replaces
        whatever the operation ended with. */
    method Leave<T>(s: Slot, result: Outcome<T>) returns (r: Outcome<T>)
      requires s.Valid()
      modifies s`count
      ensures s.Valid()
      ensures s.disposed ==> r == Throws(ObjectDisposed) && s.count == old(s.count)
      ensures !s.disposed && old(s.count) == 1 ==> r == Throws(SemaphoreFull) && s.count == 1
      ensures !s.disposed && old(s.count) == 0 ==> r == result && s.count == 1
    {
      var e := s.Release();
      r := if e.Some? then Throws(e.value) else result;
    }

    /** ExecuteDeviceOperationAsync(ip, port, operation, token), run without interference.
        A cancelled wait builds no device and leaves the permit alone; a taken permit makes
        the caller wait; otherwise exactly one device is built, the retry loop runs, and the
        permit is returned on every exit path, unless Task.Delay(-1) never ends. */
    method Execute<T>(ip: string, port: int, env: Env<T>) returns (r: ExecResult<T>)
      requires Valid()
      modifies this`slots, this`devicesBuilt, if DeviceKey(ip, port) in slots then {slots[DeviceKey(ip, port)]} else {}
      ensures Valid()
      ensures DeviceKey(ip, port) in slots
      ensures forall k | k in old(slots) :: k in slots && slots[k] == old(slots[k])
      ensures slots.Keys == old(slots.Keys) + {DeviceKey(ip, port)}
      ensures old(DeviceKey(ip, port) !in slots) ==> fresh(slots[DeviceKey(ip, port)])
      ensures forall k | k in old(slots) && k != DeviceKey(ip, port) :: slots[k].count == old(slots[k].count)
      ensures var k := DeviceKey(ip, port);
        var before := if old(k in slots) then old(slots[k].count) else 1;
        if env.waitCancelled then
          r == Done(Throws(Canceled(true))) && devicesBuilt == old(devicesBuilt) && slots[k].count == before
        else if before == 0 then
          r == WaitsForPermit && devicesBuilt == old(devicesBuilt) && slots[k].count == 0
        else
          devicesBuilt == old(devicesBuilt) + 1
          && match Held(k, settings, env)
             case Finished(o) => r == Done(o) && slots[k].count == 1
             case Hangs => r == Stuck && slots[k].count == 0
    {
      var key := DeviceKey(ip, port);
      var entered := Enter(ip, port, env.waitCancelled);
      match entered {
        case EnterFailed(e) =>
          r := Done(Throws(e));
        case Blocked =>
          r := WaitsForPermit;
        case Entered(s) =>
          var held := RunHeld(key, env);
          match held {
            case Hangs =>
              r := Stuck;
            case Finished(o) =>
              var o' := Leave(s, o);
              r := Done(o');
          }
      }
    }

    /** ExecuteDeviceOperationAsync(ip, port, operation): a token source with
        TotalTimeoutMilliseconds. A negative timeout other than -1 is rejected before anything
        happens; a zero timeout cancels the token at once, so the wait fails. */
    method ExecuteWithDefaultTimeout<T>(ip: string, port: int, env: Env<T>) returns (r: ExecResult<T>)
      requires Valid()
      modifies this`slots, this`devicesBuilt, if DeviceKey(ip, port) in slots then {slots[DeviceKey(ip, port)]} else {}
      ensures Valid()
      ensures settings.TotalTimeoutMilliseconds() < -1 ==>
        r == Done(Throws(ArgumentOutOfRange("millisecondsDelay"))) && slots == old(slots)
        && devicesBuilt == old(devicesBuilt)
      ensures settings.TotalTimeoutMilliseconds() == 0 ==>
        r == Done(Throws(Canceled(true))) && devicesBuilt == old(devicesBuilt)
        && DeviceKey(ip, port) in slots
        && (forall k | k in old(slots) :: k in slots && slots[k] == old(slots[k]) && slots[k].count == old(slots[k].count))
        && slots.Keys == old(slots.Keys) + {DeviceKey(ip, port)}
        && (DeviceKey(ip, port) !in old(slots) ==> slots[DeviceKey(ip, port)].count == 1)
    {
      var total := settings.TotalTimeoutMilliseconds();
      if total < -1 {
        return Done(Throws(ArgumentOutOfRange("millisecondsDelay")));
      }
      var effective := if total == 0 then env.(waitCancelled := true) else env;
      r := Execute(ip, port, effective);
    }

    /** ReleaseDevice: remove the reader's semaphore and dispose it; nothing happens for an
        unknown reader. */
    method ReleaseDevice(ip: string, port: int)
      requires Valid()
      modifies this`slots, if DeviceKey(ip, port) in slots then {slots[DeviceKey(ip, port)]} else {}
      ensures Valid()
      ensures slots == old(slots) - {DeviceKey(ip, port)}
      ensures old(DeviceKey(ip, port) in slots) ==>
        old(slots[DeviceKey(ip, port)]).disposed
        && old(slots[DeviceKey(ip, port)]).count == old(slots[DeviceKey(ip, port)].count)
    {
      var key := DeviceKey(ip, port);
      if key in slots {
        var s := slots[key];
        slots := slots - {key};
        assert Valid() && forall k | k in slots :: slots[k] != s;
        assert s !in slots.Values;
        s.Dispose();
      } else {
        assert slots - {key} == slots;
      }
    }

    /** ForceReleaseDevice: a permit is returned only to a registered semaphore whose permit is
        taken; the registry and every other semaphore stay as they were. */
    method ForceReleaseDevice(ip: string, port: int)
      requires Valid()
      modifies if DeviceKey(ip, port) in slots then {slots[DeviceKey(ip, port)]} else {}
      ensures Valid()
      ensures slots == old(slots)
      ensures Counts() == if DeviceKey(ip, port) in old(slots) && old(slots[DeviceKey(ip, port)].count) == 0
                          then old(Counts())[DeviceKey(ip, port) := 1] else old(Counts())
    {
      var key := DeviceKey(ip, port);
      if key in slots {
        var s := slots[key];
        if s.count == 0 {
          var e := s.Release();
        }
      }
    }

    /** CleanupHangingOperations: every registered semaphore whose permit is taken gets it back;
        afterwards every permit is free and the registry is unchanged. */
    method CleanupHangingOperations()
      requires Valid()
      modifies slots.Values
      ensures Valid()
      ensures slots == old(slots)
      ensures forall k | k in slots :: slots[k].count == 1
      ensures forall k | k in slots && old(slots[k].count) == 1 :: slots[k].count == 1
    {
      var remaining := slots.Keys;
      while remaining != {}
        invariant remaining <= slots.Keys
        invariant Valid()
        invariant forall k | k in slots && k !in remaining :: slots[k].count == 1
        invariant forall k | k in remaining :: slots[k].count == old(slots[k].count)
        decreases remaining
      {
        var k :| k in remaining;
        var s := slots[k];
        if s.count == 0 {
          var e := s.Release();
        }
        remaining := remaining - {k};
      }
    }

    /** Dispose: the first call disposes every semaphore and empties the registry; later calls
        do nothing, whatever was registered since. */
    method Dispose()
      requires Valid()
      modifies this`slots, this`disposed, slots.Values
      ensures Valid() && disposed
      ensures old(disposed) ==> slots == old(slots) && Counts() == old(Counts())
      ensures !old(disposed) ==> slots == map[] && forall s | s in old(slots.Values) :: s.disposed
    {
      if !disposed {
        var remaining := slots.Values;
        while remaining != {}
          invariant slots == old(slots) && remaining <= slots.Values
          invariant forall s | s in slots.Values && s !in remaining :: s.disposed
          decreases remaining
        {
          var s :| s in remaining;
          s.Dispose();
          remaining := remaining - {s};
        }
        slots := map[];
        disposed := true;
      }
    }
  }

  // ---------------------------------------------------------------------------------------
  // Interleavings the source permits, played out one step at a time

  /** A force-release taken while the holder still runs puts the permit back, so the holder's
      own Release in its finally block finds the semaphore full: the operation's result is
      lost and SemaphoreFullException reaches the caller. */
  method ForceReleaseDuringHold(ip: string, port: int, result: Outcome<int>)
    returns (holderEnds: Outcome<int>, pendingWhileHeld: int, pendingAfterForce: int)
    ensures pendingWhileHeld == 1 && pendingAfterForce == 0
    ensures holderEnds == Throws(SemaphoreFull)
  {
    var m := new Manager(Defaults);
    var entered := m.Enter(ip, port, false);
    var s := entered.slot;
    pendingWhileHeld := m.PendingOperations(ip, port);
    m.ForceReleaseDevice(ip, port);
    pendingAfterForce := m.PendingOperations(ip, port);
    holderEnds := m.Leave(s, result);
  }

  /** After a force-release a second caller is admitted while the first still holds the
      permit: two operations run on one reader, and whichever finishes second meets a full
      semaphore. */
  method ForceReleaseAdmitsSecondHolder(ip: string, port: int, first: Outcome<int>, second: Outcome<int>)
    returns (secondAdmitted: bool, firstEnds: Outcome<int>, secondEnds: Outcome<int>)
    ensures secondAdmitted
    ensures firstEnds == first && secondEnds == Throws(SemaphoreFull)
  {
    var m := new Manager(Defaults);
    var a := m.Enter(ip, port, false);
    m.ForceReleaseDevice(ip, port);
    var b := m.Enter(ip, port, false);
    secondAdmitted := b.Entered?;
    firstEnds := m.Leave(a.slot, first);
    secondEnds := m.Leave(b.slot, second);
  }

  /** ReleaseDevice while an operation runs disposes the semaphore the holder owns: its
      Release throws ObjectDisposedException, and the next caller gets a new, free semaphore. */
  method ReleaseDeviceDuringHold(ip: string, port: int, result: Outcome<int>)
    returns (holderEnds: Outcome<int>, nextAdmitted: bool)
    ensures holderEnds == Throws(ObjectDisposed)
    ensures nextAdmitted
  {
    var m := new Manager(Defaults);
    var a := m.Enter(ip, port, false);
    m.ReleaseDevice(ip, port);
    var b := m.Enter(ip, port, false);
    nextAdmitted := b.Entered? && b.slot != a.slot;
    holderEnds := m.Leave(a.slot, result);
  }

  /** Execute never looks at the disposed flag: after Dispose it creates a semaphore again
      and runs the operation, and a second Dispose leaves that semaphore registered. */
  method ExecuteAfterDispose(ip: string, port: int)
    returns (r: ExecResult<int>, registeredAfterSecondDispose: bool)
    ensures r == Done(Returns(7))
    ensures registeredAfterSecondDispose
  {
    var m := new Manager(Defaults);
    m.Dispose();
    r := m.Execute(ip, port, Env(false, None, (i: nat) => Attempt(false, Returns(7), false)));
    m.Dispose();
    registeredAfterSecondDispose := DeviceKey(ip, port) in m.slots;
  }

  /** Releasing a reader twice: the second call finds nothing and changes nothing. */
  method ReleaseDeviceTwice(ip: string, port: int) returns (registeredAfterFirst: bool, registeredAfterSecond: bool)
    ensures !registeredAfterFirst && !registeredAfterSecond
  {
    var m := new Manager(Defaults);
    var r := m.Execute(ip, port, Env(false, None, (i: nat) => Attempt(false, Returns(0), false)));
    m.ReleaseDevice(ip, port);
    registeredAfterFirst := DeviceKey(ip, port) in m.slots;
    m.ReleaseDevice(ip, port);
    registeredAfterSecond := DeviceKey(ip, port) in m.slots;
  }
}
