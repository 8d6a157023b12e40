# lmdbsync: resize-retry and NoLock decisions, in Dafny

This project models the core of the Go package `lmdbsync` (file
`exp/lmdbsync/lmdbsync.go`). The package wraps an LMDB environment in an `Env`
that does three things:

- **NoLock tracking.** `Env` records whether the engine runs without its own
  locking (MDB_NOLOCK). `NewEnv` sets this from a flags probe. After that,
  `Open`, `SetFlags` and `UnsetFlags` keep it current.
- **Lock-mode choice.** `Env` runs every transaction under one readers-writer
  lock. A read-write transaction takes it exclusively while NoLock is on.
  Every other transaction takes it shared.
- **Resize retry.** The engine can report MapResized. The transaction is then
  run again, after the engine adopts its new map size (`SetMapSize(0)`). The
  adoption holds the lock exclusively and may sleep first. The number of
  retries is bounded, and a failed adoption is fatal.

The modules:

- `Lmdb` (`lmdb.dfy`) is the part of the engine interface the layer uses:
  flags as a 64-bit mask with MDB_NOLOCK and MDB_RDONLY, errors (MapResized
  or an errno), and a Go `error` value as `Status`. An engine error has one
  spelling: the map-resized errno (MDB_MAP_RESIZED, -30785) is always
  `MapResized`, so `IsMapResized` recognises exactly the errors carrying it (`ErrorOf`).
- `Policy` (`policy.dfy`) holds the pure decisions: the lock mode, the retry
  limit in force, the delays and the decision of `retryResized`. It also holds
  `Drive`, the whole `runRetry` loop written as a recursive function. The
  lemmas about the driver are proved on `Drive`.
- `LmdbSync` (`lmdbsync.dfy`) has the class `Env`. `noLock`, `RetryResize` and
  `DelayRepeatResize` are its fields. A ghost field `engineFlags` and the
  invariant `Valid()` say that `noLock` is the NoLock bit of the engine's
  flags. The methods follow the Go methods one by one. `RunRetry` is the
  `for i := 0; ; i++` loop. It is proved equal to `Drive`, so every property
  of `Drive` holds for it.

Engine calls are replaced by their answers. A single call becomes a `Status`
parameter. For the retry loop, `txn(k)` is what the k-th run of the
transaction returns, and `adopt(k)` is what the k-th `SetMapSize(0)` returns.
Instead of locking and sleeping, the methods return a trace of `Event`s:

- `Txn(mode)` is one run of the transaction, under the lock mode held.
- `Adopt(size, slept, mode)` is one adoption: the size passed to the engine,
  the time slept first (in nanoseconds) and the lock mode held.

A panic in `retryResized` is the outcome `Fatal(error)`, kept apart from
`Returned(status)`.

Where the code and its comments disagree, the model follows the code:

- The comment at lines 45-46 says a negative retry count means "retry
  forever". The code at lines 271-273 gives up at once for any limit `<= 0`.
- Line 274 gives up only when `maxRetry < i`. So with limit `m > 0`, a
  transaction that always returns MapResized runs `m + 2` times, with `m + 1`
  adoptions (`AlwaysResized`). With the default limit of 2, that is four runs
  (`DefaultsAlwaysResized`). The comment at lines 49-50 speaks of stopping
  after the limit's number of consecutive MapResized results.
- Line 280 calls `getDelayRepeatResize()` with no argument, but line 256
  declares it with the retry index `i`. As written, the file does not
  compile. The model passes `i`.
- A `RetryResize` of 0 cannot be told apart from "not set", so it falls
  back to the default (lines 250-253).
- When the flags probe in `NewEnv` returns EINVAL, the code uses the flags
  value the probe returned (line 94). It does not force "no NoLock".

## Model

| member | source | states |
|---|---|---|
| `Lmdb.ErrorOf` | exp/lmdbsync/lmdbsync.go:263-265 | the error for an engine return code keeps that code, and `IsMapResized` recognises it exactly when the code is MDB_MAP_RESIZED (-30785) |
| `Lmdb.ErrorOfCodeOf` | exp/lmdbsync/lmdbsync.go:263-265 | every engine error is the translation of its own return code, so the map-resized failure has no second spelling that `IsMapResized` would miss |
| `Policy.LockMode` | exp/lmdbsync/lmdbsync.go:235-247 | the lock is taken exclusively if and only if NoLock is on and the transaction is not read-only; a read-only transaction, or any transaction while NoLock is off, takes it shared |
| `Policy.EffectiveRetryResize` | exp/lmdbsync/lmdbsync.go:249-254 | the limit in force is `RetryResize` when nonzero and DefaultRetryResize (2) when zero, so it is never zero |
| `Policy.RepeatDelay` | exp/lmdbsync/lmdbsync.go:256-261 | the per-Env delay function applied to the retry index when one is set, DefaultDelayRepeatResize (1ms) otherwise |
| `Policy.RetryDelay` | exp/lmdbsync/lmdbsync.go:278-281 | the first retry (index 0) gets delay 0; later retries get the repeat delay for their index |
| `Policy.Slept` | exp/lmdbsync/lmdbsync.go:160-167 | the adoption sleeps exactly when the delay is positive, and then for that delay |
| `Policy.SleepAt` | exp/lmdbsync/lmdbsync.go:278-283 | the adoption at retry 0 does not sleep; later ones sleep 1ms without a delay function, and with one they sleep exactly when it gives a positive delay, and then for that delay |
| `Policy.Decide` | exp/lmdbsync/lmdbsync.go:263-287 | `retryResized` adopts and goes round again only for MapResized with a positive limit not below the index; it goes round again exactly when that adoption succeeds, and otherwise panics with the engine's error |
| `Policy.Drive` | exp/lmdbsync/lmdbsync.go:224-233 | every result starts with a run in the request's lock mode, and a returned result is the value of the run after the last adoption; the rest of its behaviour is carried by `DriveBound`, `DriveHistory`, `DriveReturns`, `DriveFails` and `DriveEvents` |
| `Policy.DriveBound` | exp/lmdbsync/lmdbsync.go:224-233 | the driver always stops, after at least one run and at most `m + 2` runs from the start when the limit `m` is positive, or one run otherwise |
| `Policy.DriveHistory` | exp/lmdbsync/lmdbsync.go:224-233 | every result has one of two histories: `n` successful adoptions, each after a MapResized run the limit allowed to retry, then a run that is not retried, whose error value is returned unchanged (`n + 1` runs); or `n - 1` such retries, then a run the limit allowed to retry whose adoption failed, fatal with the engine's error (`n` runs, `n` adoptions) |
| `Policy.DriveReturns` | exp/lmdbsync/lmdbsync.go:226-231 | conversely, after `n` successful retries, a run the decision does not retry is returned unchanged after exactly `n + 1` runs and `n` adoptions |
| `Policy.DriveFails` | exp/lmdbsync/lmdbsync.go:283-286 | conversely, after `n` successful retries, a failed adoption ends the driver as Fatal with the engine's error, after `n + 1` runs and `n + 1` adoptions |
| `Policy.DriveEvents` | exp/lmdbsync/lmdbsync.go:226-231 | runs and adoptions alternate in the trace; every run holds the request's lock mode, and the adoption after retry `j` passes size 0, holds the lock exclusively and sleeps the delay of retry `j` |
| `Policy.EventsWellFormed` | exp/lmdbsync/lmdbsync.go:160-171 | every adoption passes size 0 and holds the lock exclusively; every run holds the mode chosen for the request; the first adoption does not sleep |
| `Policy.OtherResultReturned` | exp/lmdbsync/lmdbsync.go:263-266 | success or any error other than MapResized is returned unchanged after that one run, with no adoption |
| `Policy.RetriesDisabled` | exp/lmdbsync/lmdbsync.go:270-273 | with a limit `<= 0`, the first result, MapResized included, is returned after one run with zero adoptions |
| `Policy.ResizedThenResult` | exp/lmdbsync/lmdbsync.go:274-276 | with limit `m > 0`, `k <= m + 1` MapResized runs followed by another result return that result after `k + 1` runs and `k` adoptions |
| `Policy.AlwaysResized` | exp/lmdbsync/lmdbsync.go:274-276 | with limit `m > 0` and a transaction that always returns MapResized, MapResized is returned after exactly `m + 2` runs and `m + 1` adoptions |
| `Policy.ResizedOnlyWhenExhausted` | exp/lmdbsync/lmdbsync.go:226-231 | MapResized reaches the caller only as the last run's result, and only after the largest number of runs the limit allows |
| `Policy.AdoptionFailureIsFatal` | exp/lmdbsync/lmdbsync.go:283-286 | an adoption that fails after `k` successful retries ends the driver as Fatal with the engine's error, never as a returned error |
| `Policy.DefaultsAlwaysResized` | exp/lmdbsync/lmdbsync.go:41-51 | with the default limit and delay, a transaction that always returns MapResized gives exactly run, adopt (no sleep), run, adopt (1ms), run, adopt (1ms), run, then MapResized |
| `LmdbSync.Env.Wrap` | exp/lmdbsync/lmdbsync.go:94-99 | the new wrapper's `noLock` is the NoLock bit of the engine's flags, `Valid()` holds, and neither `RetryResize` nor `DelayRepeatResize` is overridden |
| `LmdbSync.Env.NewEnv` | exp/lmdbsync/lmdbsync.go:79-101 | a failed allocation or a failed probe other than EINVAL is returned with no Env; otherwise a fresh Env whose `noLock` is the NoLock bit of the probed flags, with no overrides |
| `LmdbSync.Env.Open` | exp/lmdbsync/lmdbsync.go:105-117 | the engine's error is returned as is; `noLock` becomes true only when the call succeeds and `flags` has NoLock, and is unchanged otherwise; `Valid()` is kept |
| `LmdbSync.Env.SetFlags` | exp/lmdbsync/lmdbsync.go:121-133 | the same as Open: the error is returned as is, and `noLock` can only be turned on, only on success and only by the NoLock bit; `Valid()` is kept |
| `LmdbSync.Env.UnsetFlags` | exp/lmdbsync/lmdbsync.go:137-149 | the error is returned as is; `noLock` becomes false only when the call succeeds and `flags` has NoLock, and is unchanged otherwise; `Valid()` is kept |
| `LmdbSync.Env.Run` | exp/lmdbsync/lmdbsync.go:235-247 | the body's error value is passed through, and its run holds the lock exclusively if and only if NoLock is on and the transaction is not read-only |
| `LmdbSync.Env.AdoptMapSize` | exp/lmdbsync/lmdbsync.go:160-171 | the engine is passed size 0, whatever size was asked for; the lock is held exclusively; only a positive delay is slept; the engine's answer is returned |
| `LmdbSync.Env.RetryResized` | exp/lmdbsync/lmdbsync.go:263-288 | the method's decision and the adoption it makes are those of `Decide`, with the limit in force and the delay of retry `i` |
| `LmdbSync.Env.RunRetry` | exp/lmdbsync/lmdbsync.go:224-233 | the loop's outcome and trace are exactly those of `Drive` from index 0, with the lock mode of `run` and the limit in force, so every `Drive` lemma holds for it |
| `LmdbSync.Env.RunTxn` | exp/lmdbsync/lmdbsync.go:181-184 | on a valid Env, the outcome and trace are those of `Drive`; the request is read-only when its flags carry MDB_RDONLY, and every run holds the lock exclusively if and only if the engine's flags carry NoLock and the request is not read-only |
| `LmdbSync.Env.View` | exp/lmdbsync/lmdbsync.go:194-196 | a read-only request: the outcome and trace are those of `Drive`, and every run holds the lock shared |
| `LmdbSync.Env.Update` | exp/lmdbsync/lmdbsync.go:207-209 | a read-write request on a valid Env: the outcome and trace are those of `Drive`, and every run holds the lock exclusively if and only if the engine's flags carry NoLock |
| `LmdbSync.Env.UpdateLocked` | exp/lmdbsync/lmdbsync.go:220-222 | a read-write request, like Update: on a valid Env every run holds the lock exclusively if and only if the engine's flags carry NoLock |

## Left out

- The `sync.RWMutex` (line 74): blocking, fairness and mutual exclusion between goroutines are not modelled. The model is sequential, and the lock appears only as the mode tag on each event.
- `time.Sleep` (line 166): the duration slept is recorded, and no time passes.
- The flags reported alongside EINVAL: `NewEnv` uses the flags value the probe returns even when the probe answers EINVAL (line 94). The model takes that value as given. It does not model the binding's answer in that case; the code relies on it reporting no flags, so that NoLock is off. `engineFlags` then holds those reported flags, not necessarily the engine's.
- The LMDB engine (`lmdb.NewEnv`, `Env.Flags`, `Env.Open`, `SetFlags`, `UnsetFlags`, `RunTxn`, `View`, `Update`, `UpdateLocked`, `SetMapSize`, `IsErrnoSys`, `IsMapResized`): foreign code, replaced by the answers it gives. The ghost `engineFlags` assumes that a successful Open or SetFlags sets the given bits and a successful UnsetFlags clears them.
- The public `SetMapSize` proxy (lines 153-158): it takes the lock, then calls `setMapSize`, which takes the same non-reentrant lock again, so it deadlocks. It also ignores `size`. It is not modelled.
- The embedded `*lmdb.Env` method forwarding, the `path` and `os.FileMode` arguments of `Open`, and the transaction closures themselves: not modelled. A closure is only the sequence of results it returns.
- The process-wide `DefaultRetryResize` and `DefaultDelayRepeatResize` variables: modelled as the constants 2 and 1ms. The code can change them at run time; the model cannot.
- `LmdbSync.Env.RunRetry`: the loop counter `i` and the limit are unbounded integers. With a Go `int` limit of the largest value, `i` would wrap around before `maxRetry < i` could hold; the model does not capture this.
- `LmdbSync.Env.RunRetry`: `run` reads `noLock` on every iteration. In this sequential model nothing changes `noLock` during the loop, so all runs of one call have the same mode.
- `time.Duration`'s 64-bit range: delays are unbounded integers.
