/** The sequential decision layer under `lmdbsync.Env`: which lock mode a
    transaction runs under, how many times a transaction that keeps failing
    with MapResized is re-run, how long each adoption of the new map size
    waits, and the whole resize-retry driver as a function of what the
    engine returns. */
module Policy {
  import opened Lmdb

  datatype Option<T> = None | Some(value: T)

  // ---------------------------------------------------------------------------
  // Lock mode (Env.run)
  // ---------------------------------------------------------------------------

  /** The two ways `txnlock` (a sync.RWMutex) is held. */
  datatype Mode = Shared | Exclusive

  /** The mode `run` takes the lock in: exclusive only for a read-write
      transaction while the engine's own locking is off. */
  function LockMode(noLock: bool, readonly: bool): (m: Mode)
    ensures m == Exclusive <==> noLock && !readonly
  {
    if noLock && !readonly then Exclusive else Shared
  }

  // ---------------------------------------------------------------------------
  // Configuration (getRetryResize, getDelayRepeatResize)
  // ---------------------------------------------------------------------------

  /** DefaultRetryResize. */
  const DefaultRetryResize: int := 2

  /** One millisecond as a Go time.Duration (nanoseconds). */
  const Millisecond: int := 1_000_000

  /** DefaultDelayRepeatResize. */
  const DefaultDelayRepeatResize: int := Millisecond

  /** The retry limit in force: the per-Env override when it is nonzero, the
      default otherwise; an override of zero cannot be told from no override,
      so the limit in force is never zero. */
  function EffectiveRetryResize(retryResize: int): (m: int)
    ensures m != 0
    ensures retryResize != 0 ==> m == retryResize
    ensures retryResize == 0 ==> m == DefaultRetryResize
  {
    if retryResize != 0 then retryResize else DefaultRetryResize
  }

  /** The delay before adopting a new map size at retry `i`: the per-Env
      function applied to `i` when one is set, the default otherwise. */
  function RepeatDelay(i: int, delayFn: Option<int -> int>): (d: int)
    ensures delayFn.Some? ==> d == delayFn.value(i)
    ensures delayFn.None? ==> d == DefaultDelayRepeatResize
  {
    match delayFn
    case Some(f) => f(i)
    case None => DefaultDelayRepeatResize
  }

  /** The delay `retryResized` passes to `setMapSize` at retry `i`: none for
      the first retry, the repeat delay from the second on. */
  function RetryDelay(i: nat, delayFn: Option<int -> int>): (d: int)
    ensures i == 0 ==> d == 0
    ensures i > 0 ==> d == RepeatDelay(i, delayFn)
  {
    if i > 0 then RepeatDelay(i, delayFn) else 0
  }

  /** How long `setMapSize` sleeps, holding the lock, for a given delay:
      only a positive delay is slept. */
  function Slept(delay: int): (s: nat)
    ensures s > 0 <==> delay > 0
    ensures delay > 0 ==> s == delay
  {
    if delay > 0 then delay else 0
  }

  /** The time slept by the adoption made at retry `i`. */
  function SleepAt(i: nat, delayFn: Option<int -> int>): (s: nat)
    ensures i == 0 ==> s == 0
    ensures i > 0 && delayFn.None? ==> s == Millisecond
    ensures i > 0 && delayFn.Some? ==> (s > 0 <==> delayFn.value(i) > 0)
    ensures i > 0 && delayFn.Some? && delayFn.value(i) > 0 ==> s == delayFn.value(i)
  {
    Slept(RetryDelay(i, delayFn))
  }

  // ---------------------------------------------------------------------------
  // The retry decision (Env.retryResized, without its side effect)
  // ---------------------------------------------------------------------------

  /** Whether `retryResized(i, st)` adopts a new map size and asks for another
      run, given the retry limit in force. */
  predicate ShouldAdopt(i: nat, st: Status, maxRetry: int) {
    IsMapResized(st) && maxRetry > 0 && !(maxRetry < i)
  }

  /** What `retryResized` decides after a run: stop and return the run's
      error value, go round again after a successful adoption, or panic
      because the adoption failed. */
  datatype Decision = Stop | Retry | Panic(error: EngineError)

  /** The decision of `retryResized(i, st)` when an adoption, if one is made,
      gets the answer `adopted` from the engine: it adopts exactly when the
      retry decision says so, and it panics exactly when that adoption fails. */
  function Decide(i: nat, st: Status, maxRetry: int, adopted: Status): (d: Decision)
    ensures d != Stop <==> ShouldAdopt(i, st, maxRetry)
    ensures d == Retry <==> ShouldAdopt(i, st, maxRetry) && adopted == Ok
    ensures d.Panic? ==> adopted == Fail(d.error)
  {
    if !IsMapResized(st) || maxRetry <= 0 || maxRetry < i then Stop
    else if adopted == Ok then Retry
    else Panic(adopted.error)
  }

  // ---------------------------------------------------------------------------
  // The driver (Env.runRetry) as a function of the engine's answers
  // ---------------------------------------------------------------------------

  /** What the layer does, in order: a transaction run under a lock mode, or an
      adoption of the engine's map size (the size passed to the engine, the
      time slept first, the lock mode held). */
  datatype Event = Txn(mode: Mode) | Adopt(size: int, slept: nat, mode: Mode)

  /** How `runRetry` ends: it returns the last run's error value, or an
      adoption failed and it panics. */
  datatype Outcome = Returned(status: Status) | Fatal(error: EngineError)

  datatype Driven = Driven(outcome: Outcome, trace: seq<Event>)

  /** Number of transaction runs in a trace. */
  function Runs(t: seq<Event>): nat {
    if t == [] then 0 else (if t[0].Txn? then 1 else 0) + Runs(t[1..])
  }

  /** Number of map-size adoptions in a trace. */
  function Adopts(t: seq<Event>): nat {
    if t == [] then 0 else (if t[0].Adopt? then 1 else 0) + Adopts(t[1..])
  }

  lemma {:induction false} CountsAppend(a: seq<Event>, b: seq<Event>)
    ensures Runs(a + b) == Runs(a) + Runs(b)
    ensures Adopts(a + b) == Adopts(a) + Adopts(b)
  {
    if a == [] {
      assert a + b == b;
    } else {
      assert (a + b)[1..] == a[1..] + b;
      CountsAppend(a[1..], b);
    }
  }

  /** The adoption `retryResized` makes at retry `i` after deciding `d`:
      none when it stops, otherwise one that passes size 0, holds the lock
      exclusively and first sleeps SleepAt(i). */
  function AdoptionEvents(delayFn: Option<int -> int>, i: nat, d: Decision): (evs: seq<Event>)
    ensures |evs| == if d == Stop then 0 else 1
  {
    if d == Stop then [] else [Adopt(0, SleepAt(i, delayFn), Exclusive)]
  }

  /** The events of one round of the driver: the run, then the adoption made
      at retry `i` unless the decision was to stop. */
  function Round(mode: Mode, delayFn: Option<int -> int>, i: nat, d: Decision): seq<Event> {
    [Txn(mode)] + AdoptionEvents(delayFn, i, d)
  }

  lemma RoundCounts(mode: Mode, delayFn: Option<int -> int>, i: nat, d: Decision)
    ensures Runs(Round(mode, delayFn, i, d)) == 1
    ensures Adopts(Round(mode, delayFn, i, d)) == if d == Stop then 0 else 1
  {
    var round := Round(mode, delayFn, i, d);
    var evs := AdoptionEvents(delayFn, i, d);
    assert round[0] == Txn(mode) && round[1..] == evs;
    if d != Stop {
      assert evs[0].Adopt? && evs[1..] == [];
      assert Runs(evs) == 0 && Adopts(evs) == 1;
    }
  }

  /** The most runs the driver can make from retry index `i` on. */
  function RunBound(maxRetry: int, i: nat): nat {
    if maxRetry > 0 && i <= maxRetry then maxRetry + 2 - i else 1
  }

  /** `runRetry` from loop index `i` on. `txn(k)` is what the transaction
      returns on its k-th run and `adopt(k)` what the engine's SetMapSize(0)
      returns on the k-th adoption; `mode` is the lock mode every run takes
      and `maxRetry` the retry limit in force. */
  function Drive(mode: Mode, maxRetry: int, delayFn: Option<int -> int>,
                 txn: nat -> Status, adopt: nat -> Status, i: nat): (r: Driven)
    ensures |r.trace| >= 1 && r.trace[0] == Txn(mode)
    ensures r.outcome.Returned? ==> r.outcome.status == txn(i + Adopts(r.trace))
    decreases if i <= maxRetry then maxRetry - i + 1 else 0
  {
    var d := Decide(i, txn(i), maxRetry, adopt(i));
    var round := Round(mode, delayFn, i, d);
    match d
    case Stop => Driven(Returned(txn(i)), round)
    case Panic(e) => Driven(Fatal(e), round)
    case Retry =>
      var rest := Drive(mode, maxRetry, delayFn, txn, adopt, i + 1);
      Driven(rest.outcome, round + rest.trace)
  }

  /** One round of the driver, for a decision `d` taken at retry `i`. */
  lemma DriveUnroll(mode: Mode, maxRetry: int, delayFn: Option<int -> int>,
                    txn: nat -> Status, adopt: nat -> Status, i: nat, d: Decision)
    requires d == Decide(i, txn(i), maxRetry, adopt(i))
    ensures var r := Drive(mode, maxRetry, delayFn, txn, adopt, i);
            var round := Round(mode, delayFn, i, d);
            match d
            case Stop => r == Driven(Returned(txn(i)), round)
            case Panic(e) => r == Driven(Fatal(e), round)
            case Retry =>
              var rest := Drive(mode, maxRetry, delayFn, txn, adopt, i + 1);
              r == Driven(rest.outcome, round + rest.trace)
  {
  }

  /** The driver always stops, after at least one run and at most
      RunBound(maxRetry, i) of them: `maxRetry + 2` from the start when the
      limit is positive, a single run otherwise. */
  lemma {:induction false} DriveBound(mode: Mode, maxRetry: int, delayFn: Option<int -> int>,
                                      txn: nat -> Status, adopt: nat -> Status, i: nat)
    ensures var r := Drive(mode, maxRetry, delayFn, txn, adopt, i);
            1 <= Runs(r.trace) <= RunBound(maxRetry, i)
    decreases if i <= maxRetry then maxRetry - i + 1 else 0
  {
    var d := Decide(i, txn(i), maxRetry, adopt(i));
    var round := Round(mode, delayFn, i, d);
    RoundCounts(mode, delayFn, i, d);
    if d == Retry {
      var rest := Drive(mode, maxRetry, delayFn, txn, adopt, i + 1);
      CountsAppend(round, rest.trace);
      DriveBound(mode, maxRetry, delayFn, txn, adopt, i + 1);
    }
  }

  /** Retries `i` .. `i + n - 1` all adopted a new map size successfully. */
  ghost predicate Retried(maxRetry: int, txn: nat -> Status, adopt: nat -> Status, i: nat, n: nat) {
    forall j :: i <= j < i + n ==> ShouldAdopt(j, txn(j), maxRetry) && adopt(j) == Ok
  }

  /** What a result of the driver from retry `i` on must look like: `n`
      successful adoptions, each after a MapResized run the limit allowed to
      retry, then either a run the decision does not retry, whose error value
      is returned unchanged, or a failed adoption, which is fatal. */
  ghost predicate Explains(maxRetry: int, txn: nat -> Status, adopt: nat -> Status, i: nat, r: Driven) {
    var n := Adopts(r.trace);
    match r.outcome
    case Returned(st) =>
      Runs(r.trace) == n + 1 && Retried(maxRetry, txn, adopt, i, n) &&
      !ShouldAdopt(i + n, txn(i + n), maxRetry) && st == txn(i + n)
    case Fatal(e) =>
      Runs(r.trace) == n && n >= 1 && Retried(maxRetry, txn, adopt, i, n - 1) &&
      ShouldAdopt(i + n - 1, txn(i + n - 1), maxRetry) && adopt(i + n - 1) == Fail(e)
  }

  /** Every result of the driver is explained by the engine's answers. */
  lemma {:induction false} DriveHistory(mode: Mode, maxRetry: int, delayFn: Option<int -> int>,
                                        txn: nat -> Status, adopt: nat -> Status, i: nat)
    ensures Explains(maxRetry, txn, adopt, i, Drive(mode, maxRetry, delayFn, txn, adopt, i))
    decreases if i <= maxRetry then maxRetry - i + 1 else 0
  {
    var r := Drive(mode, maxRetry, delayFn, txn, adopt, i);
    var d := Decide(i, txn(i), maxRetry, adopt(i));
    var round := Round(mode, delayFn, i, d);
    RoundCounts(mode, delayFn, i, d);
    if d == Retry {
      var rest := Drive(mode, maxRetry, delayFn, txn, adopt, i + 1);
      DriveHistory(mode, maxRetry, delayFn, txn, adopt, i + 1);
      ExplainsRetry(maxRetry, txn, adopt, i, round, rest);
    }
  }

  /** A successful retry at `i`, one round long, in front of a result the
      engine's answers explain from `i + 1` on, gives a result they explain
      from `i` on. */
  lemma ExplainsRetry(maxRetry: int, txn: nat -> Status, adopt: nat -> Status, i: nat,
                      round: seq<Event>, rest: Driven)
    requires ShouldAdopt(i, txn(i), maxRetry) && adopt(i) == Ok
    requires Runs(round) == 1 && Adopts(round) == 1
    requires Explains(maxRetry, txn, adopt, i + 1, rest)
    ensures Explains(maxRetry, txn, adopt, i, Driven(rest.outcome, round + rest.trace))
  {
    CountsAppend(round, rest.trace);
    var n := Adopts(rest.trace);
    if rest.outcome.Returned? {
      RetriedCons(maxRetry, txn, adopt, i, n);
    } else {
      RetriedCons(maxRetry, txn, adopt, i, n - 1);
    }
  }

  /** One more successful retry in front of `n` of them. */
  lemma RetriedCons(maxRetry: int, txn: nat -> Status, adopt: nat -> Status, i: nat, n: nat)
    requires ShouldAdopt(i, txn(i), maxRetry) && adopt(i) == Ok
    requires Retried(maxRetry, txn, adopt, i + 1, n)
    ensures Retried(maxRetry, txn, adopt, i, n + 1)
  {
  }

  /** Conversely, after `n` successful retries, a run the decision does not
      retry ends the driver with that run's error value, after exactly `n`
      adoptions and `n + 1` runs. */
  lemma {:induction false} DriveReturns(mode: Mode, maxRetry: int, delayFn: Option<int -> int>,
                                        txn: nat -> Status, adopt: nat -> Status, i: nat, n: nat)
    requires Retried(maxRetry, txn, adopt, i, n)
    requires !ShouldAdopt(i + n, txn(i + n), maxRetry)
    ensures var r := Drive(mode, maxRetry, delayFn, txn, adopt, i);
            r.outcome == Returned(txn(i + n)) && Adopts(r.trace) == n && Runs(r.trace) == n + 1
    decreases n
  {
    if n > 0 {
      assert ShouldAdopt(i, txn(i), maxRetry) && adopt(i) == Ok;
      var round := Round(mode, delayFn, i, Retry);
      var rest := Drive(mode, maxRetry, delayFn, txn, adopt, i + 1);
      RoundCounts(mode, delayFn, i, Retry);
      CountsAppend(round, rest.trace);
      DriveReturns(mode, maxRetry, delayFn, txn, adopt, i + 1, n - 1);
    }
  }

  /** Conversely, after `n` successful retries, a failed adoption ends the
      driver as Fatal with the engine's error, after `n + 1` runs and
      `n + 1` adoptions. */
  lemma {:induction false} DriveFails(mode: Mode, maxRetry: int, delayFn: Option<int -> int>,
                                      txn: nat -> Status, adopt: nat -> Status, i: nat, n: nat, e: EngineError)
    requires Retried(maxRetry, txn, adopt, i, n)
    requires ShouldAdopt(i + n, txn(i + n), maxRetry) && adopt(i + n) == Fail(e)
    ensures var r := Drive(mode, maxRetry, delayFn, txn, adopt, i);
            r.outcome == Fatal(e) && Adopts(r.trace) == n + 1 && Runs(r.trace) == n + 1
    decreases n
  {
    if n == 0 {
      RoundCounts(mode, delayFn, i, Panic(e));
    } else {
      var round := Round(mode, delayFn, i, Retry);
      RoundCounts(mode, delayFn, i, Retry);
      assert ShouldAdopt(i, txn(i), maxRetry) && adopt(i) == Ok;
      var rest := Drive(mode, maxRetry, delayFn, txn, adopt, i + 1);
      CountsAppend(round, rest.trace);
      DriveFails(mode, maxRetry, delayFn, txn, adopt, i + 1, n - 1, e);
    }
  }

  /** The k-th event of the driver's trace: runs and adoptions alternate,
      every run takes `mode`, and the adoption after the run of retry `j`
      passes size 0, holds the lock exclusively and sleeps SleepAt(j). */
  function EventAt(mode: Mode, delayFn: Option<int -> int>, i: nat, k: nat): Event {
    if k % 2 == 0 then Txn(mode) else Adopt(0, SleepAt(i + k / 2, delayFn), Exclusive)
  }

  lemma {:induction false} DriveEvents(mode: Mode, maxRetry: int, delayFn: Option<int -> int>,
                                       txn: nat -> Status, adopt: nat -> Status, i: nat)
    ensures var t := Drive(mode, maxRetry, delayFn, txn, adopt, i).trace;
            forall k :: 0 <= k < |t| ==> t[k] == EventAt(mode, delayFn, i, k)
    decreases if i <= maxRetry then maxRetry - i + 1 else 0
  {
    var d := Decide(i, txn(i), maxRetry, adopt(i));
    var t := Drive(mode, maxRetry, delayFn, txn, adopt, i).trace;
    var round := Round(mode, delayFn, i, d);
    if d == Retry {
      var rest := Drive(mode, maxRetry, delayFn, txn, adopt, i + 1).trace;
      assert t == round + rest && |round| == 2;
      DriveEvents(mode, maxRetry, delayFn, txn, adopt, i + 1);
      forall k | 0 <= k < |t| ensures t[k] == EventAt(mode, delayFn, i, k) {
        if k < 2 {
          assert t[k] == round[k];
        } else {
          assert t[k] == rest[k - 2];
          EventAtShift(mode, delayFn, i, k);
        }
      }
    } else {
      assert t == round;
    }
  }

  /** The k-th event from retry `i` on is the (k-2)-th from retry `i + 1` on. */
  lemma EventAtShift(mode: Mode, delayFn: Option<int -> int>, i: nat, k: nat)
    requires k >= 2
    ensures EventAt(mode, delayFn, i + 1, k - 2) == EventAt(mode, delayFn, i, k)
  {
    assert (k - 2) % 2 == k % 2 && i + 1 + (k - 2) / 2 == i + k / 2;
  }

  /** Every adoption passes size 0 to the engine and holds the lock in
      exclusive mode; every run holds it in the mode chosen for the request;
      the first adoption does not sleep. */
  lemma EventsWellFormed(mode: Mode, maxRetry: int, delayFn: Option<int -> int>,
                         txn: nat -> Status, adopt: nat -> Status)
    ensures var t := Drive(mode, maxRetry, delayFn, txn, adopt, 0).trace;
            (forall k :: 0 <= k < |t| && t[k].Adopt? ==> t[k].size == 0 && t[k].mode == Exclusive) &&
            (forall k :: 0 <= k < |t| && t[k].Txn? ==> t[k].mode == mode) &&
            (|t| > 1 ==> t[1] == Adopt(0, 0, Exclusive))
  {
    DriveEvents(mode, maxRetry, delayFn, txn, adopt, 0);
  }

  // ---------------------------------------------------------------------------
  // The driver from the start, for the situations the retry limit is about
  // ---------------------------------------------------------------------------

  /** A run that is not MapResized (success or any other error) ends the
      driver at once: that error value is returned, with no adoption. */
  lemma OtherResultReturned(mode: Mode, maxRetry: int, delayFn: Option<int -> int>,
                            txn: nat -> Status, adopt: nat -> Status, i: nat)
    requires !IsMapResized(txn(i))
    ensures Drive(mode, maxRetry, delayFn, txn, adopt, i) == Driven(Returned(txn(i)), [Txn(mode)])
  {
  }

  /** With a retry limit that is zero or negative, MapResized is not retried:
      one run, no adoption, its error value returned. */
  lemma RetriesDisabled(mode: Mode, maxRetry: int, delayFn: Option<int -> int>,
                        txn: nat -> Status, adopt: nat -> Status)
    requires maxRetry <= 0
    ensures Drive(mode, maxRetry, delayFn, txn, adopt, 0) == Driven(Returned(txn(0)), [Txn(mode)])
  {
  }

  /** With limit `m > 0`, a transaction that returns MapResized `k` times,
      `k <= m + 1`, and then something else, with every adoption succeeding,
      ends with that something else after `k + 1` runs and `k` adoptions. */
  lemma ResizedThenResult(mode: Mode, maxRetry: int, delayFn: Option<int -> int>,
                          txn: nat -> Status, adopt: nat -> Status, k: nat)
    requires 0 < maxRetry && k <= maxRetry + 1
    requires forall j :: 0 <= j < k ==> IsMapResized(txn(j)) && adopt(j) == Ok
    requires !IsMapResized(txn(k))
    ensures var r := Drive(mode, maxRetry, delayFn, txn, adopt, 0);
            r.outcome == Returned(txn(k)) && Runs(r.trace) == k + 1 && Adopts(r.trace) == k
  {
    DriveReturns(mode, maxRetry, delayFn, txn, adopt, 0, k);
  }

  /** With limit `m > 0`, a transaction that always returns MapResized, with
      every adoption succeeding, gets MapResized back after exactly `m + 2`
      runs and `m + 1` adoptions. */
  lemma AlwaysResized(mode: Mode, maxRetry: int, delayFn: Option<int -> int>,
                      txn: nat -> Status, adopt: nat -> Status)
    requires 0 < maxRetry
    requires forall j :: 0 <= j <= maxRetry + 1 ==> IsMapResized(txn(j))
    requires forall j :: 0 <= j <= maxRetry ==> adopt(j) == Ok
    ensures var r := Drive(mode, maxRetry, delayFn, txn, adopt, 0);
            r.outcome == Returned(Fail(MapResized)) &&
            Runs(r.trace) == maxRetry + 2 && Adopts(r.trace) == maxRetry + 1
  {
    DriveReturns(mode, maxRetry, delayFn, txn, adopt, 0, maxRetry + 1);
  }

  /** MapResized reaches the caller only as the result of the last run, and
      only once the limit is reached (or retries are off): the driver never
      gives up on MapResized while it may still retry. */
  lemma ResizedOnlyWhenExhausted(mode: Mode, maxRetry: int, delayFn: Option<int -> int>,
                                 txn: nat -> Status, adopt: nat -> Status)
    ensures var r := Drive(mode, maxRetry, delayFn, txn, adopt, 0);
            r.outcome == Returned(Fail(MapResized)) ==>
              IsMapResized(txn(Runs(r.trace) - 1)) &&
              Runs(r.trace) == RunBound(maxRetry, 0)
  {
    DriveHistory(mode, maxRetry, delayFn, txn, adopt, 0);
    DriveBound(mode, maxRetry, delayFn, txn, adopt, 0);
  }

  /** A failed adoption after `k` successful retries is fatal: the driver
      stops with the engine's error as Fatal, never as a returned error. */
  lemma AdoptionFailureIsFatal(mode: Mode, maxRetry: int, delayFn: Option<int -> int>,
                               txn: nat -> Status, adopt: nat -> Status, k: nat, e: EngineError)
    requires 0 < maxRetry && k <= maxRetry
    requires forall j :: 0 <= j <= k ==> IsMapResized(txn(j))
    requires forall j :: 0 <= j < k ==> adopt(j) == Ok
    requires adopt(k) == Fail(e)
    ensures var r := Drive(mode, maxRetry, delayFn, txn, adopt, 0);
            r.outcome == Fatal(e) && Runs(r.trace) == k + 1 && Adopts(r.trace) == k + 1
  {
    DriveFails(mode, maxRetry, delayFn, txn, adopt, 0, k, e);
  }

  /** With the defaults (no override of the retry limit, no delay function),
      a transaction that keeps returning MapResized runs four times; the three
      adoptions between the runs sleep 0, then 1ms, then 1ms. */
  lemma DefaultsAlwaysResized(mode: Mode, txn: nat -> Status, adopt: nat -> Status)
    requires forall j :: 0 <= j <= 3 ==> IsMapResized(txn(j))
    requires forall j :: 0 <= j <= 2 ==> adopt(j) == Ok
    ensures Drive(mode, EffectiveRetryResize(0), None, txn, adopt, 0) ==
            Driven(Returned(Fail(MapResized)),
                   [Txn(mode), Adopt(0, 0, Exclusive),
                    Txn(mode), Adopt(0, Millisecond, Exclusive),
                    Txn(mode), Adopt(0, Millisecond, Exclusive),
                    Txn(mode)])
  {
    var m := EffectiveRetryResize(0);
    DriveUnroll(mode, m, None, txn, adopt, 3, Stop);
    DriveUnroll(mode, m, None, txn, adopt, 2, Retry);
    DriveUnroll(mode, m, None, txn, adopt, 1, Retry);
    DriveUnroll(mode, m, None, txn, adopt, 0, Retry);
  }
}
