/** `lmdbsync.Env`: a wrapper around an LMDB environment that tracks whether
    the engine runs without its own locking (MDB_NOLOCK), picks the mode of
    its readers-writer lock for every transaction, and re-runs transactions
    that fail with MapResized after adopting the engine's new map size.

    Every call into the engine is replaced by the answer it gives: a
    `Status` parameter for a single call, and for the retry driver the
    functions `txn` (what the k-th run of the transaction returns) and
    `adopt` (what the k-th SetMapSize(0) returns). Instead of taking and
    releasing the lock, the methods report what they did as `Event`s
    tagged with the lock mode held. */
module LmdbSync {
  import opened Lmdb
  import opened Policy

  class Env {
    /** RetryResize: overrides DefaultRetryResize when nonzero. */
    var retryResize: int

    /** DelayRepeatResize: overrides DefaultDelayRepeatResize when set. */
    var delayRepeatResize: Option<int -> int>

    /** Whether the engine's own locking is off (MDB_NOLOCK). */
    var noLock: bool

    /** The engine's environment flags: the flags the probe at construction
        reported, used as given even when it answered EINVAL, as the
        successful flag-changing calls since have left them. */
    ghost var engineFlags: Flags

    /** `noLock` is the NoLock bit of the engine's flags. */
    ghost predicate Valid()
      reads this
    {
      noLock == HasFlag(engineFlags, NoLock)
    }

    /** The wrapper around an engine handle whose flags are `flags`, with no
        override of the defaults. */
    constructor Wrap(flags: Flags)
      ensures Valid() && engineFlags == flags
      ensures noLock == HasFlag(flags, NoLock)
      ensures retryResize == 0 && delayRepeatResize == None
    {
      retryResize := 0;
      delayRepeatResize := None;
      noLock := flags & NoLock != 0;
      engineFlags := flags;
    }

    /** NewEnv. `haveEnv` says whether an engine handle was passed in; if not,
        `created` is what lmdb.NewEnv returns. `probe` and `flags` are what
        the flags query on the handle returns: EINVAL is not an error there,
        and the flags it reports are used as they are. */
    static method NewEnv(haveEnv: bool, created: Status, flags: Flags, probe: Status)
      returns (env: Env?, err: Status)
      ensures env != null <==> err == Ok
      ensures !haveEnv && created != Ok ==> err == created
      ensures (haveEnv || created == Ok) && probe != Ok && !IsErrnoSys(probe, EINVAL) ==> err == probe
      ensures (haveEnv || created == Ok) && (probe == Ok || IsErrnoSys(probe, EINVAL)) ==> err == Ok
      ensures env != null ==>
                fresh(env) && env.Valid() && env.engineFlags == flags &&
                env.noLock == HasFlag(flags, NoLock) &&
                env.retryResize == 0 && env.delayRepeatResize == None
    {
      if !haveEnv && created != Ok {
        return null, created;
      }
      err := probe;
      if IsErrnoSys(err, EINVAL) {
        err := Ok;
      } else if err != Ok {
        return null, err;
      }
      env := new Env.Wrap(flags);
    }

    /** Open: the engine's open is called first (its answer is `answer`);
        only on success does a NoLock bit in `flags` turn `noLock` on. */
    method Open(flags: Flags, answer: Status) returns (err: Status)
      requires Valid()
      modifies this`noLock, this`engineFlags
      ensures Valid()
      ensures err == answer
      ensures engineFlags == if answer == Ok then old(engineFlags) | flags else old(engineFlags)
      ensures noLock == if answer == Ok && HasFlag(flags, NoLock) then true else old(noLock)
    {
      err := answer;
      if err != Ok {
        return;
      }
      engineFlags := engineFlags | flags;
      if flags & NoLock != 0 {
        noLock := true;
      }
    }

    /** SetFlags: like Open, it can only turn `noLock` on, and only when the
        engine's call (answer `answer`) succeeds. */
    method SetFlags(flags: Flags, answer: Status) returns (err: Status)
      requires Valid()
      modifies this`noLock, this`engineFlags
      ensures Valid()
      ensures err == answer
      ensures engineFlags == if answer == Ok then old(engineFlags) | flags else old(engineFlags)
      ensures noLock == if answer == Ok && HasFlag(flags, NoLock) then true else old(noLock)
    {
      err := answer;
      if err != Ok {
        return;
      }
      engineFlags := engineFlags | flags;
      if flags & NoLock != 0 {
        noLock := true;
      }
    }

    /** UnsetFlags: it can only turn `noLock` off, and only when the engine's
        call (answer `answer`) succeeds. */
    method UnsetFlags(flags: Flags, answer: Status) returns (err: Status)
      requires Valid()
      modifies this`noLock, this`engineFlags
      ensures Valid()
      ensures err == answer
      ensures engineFlags == if answer == Ok then old(engineFlags) & !flags else old(engineFlags)
      ensures noLock == if answer == Ok && HasFlag(flags, NoLock) then false else old(noLock)
    {
      err := answer;
      if err != Ok {
        return;
      }
      engineFlags := engineFlags & !flags;
      if flags & NoLock != 0 {
        noLock := false;
      }
    }

    /** run: the transaction body (which returns `result`) runs once, under
        the lock held exclusively for a write while NoLock is on and shared
        otherwise; its error value is passed through. */
    method Run(readonly: bool, result: Status) returns (err: Status, ev: Event)
      ensures err == result
      ensures ev.Txn? && (ev.mode == Exclusive <==> noLock && !readonly)
    {
      if noLock && !readonly {
        ev := Txn(Exclusive);
        err := result;
      } else {
        ev := Txn(Shared);
        err := result;
      }
    }

    /** setMapSize: under the exclusive lock, sleep for a positive `delay`,
        then have the engine adopt its current map size; the size passed to
        the engine is 0 whatever `size` is. `adopted` is the engine's answer. */
    method AdoptMapSize(size: int, delay: int, adopted: Status) returns (err: Status, ev: Event)
      ensures err == adopted
      ensures ev == Adopt(0, Slept(delay), Exclusive)
    {
      var slept := 0;
      if delay > 0 {
        slept := delay;
      }
      err := adopted;
      ev := Adopt(0, slept, Exclusive);
    }

    /** retryResized: after the run of retry `i` returned `err`, adopt the new
        map size and go round again exactly when the retry decision says so;
        a failed adoption is a panic. `adopted` is the engine's answer to the
        adoption, if one is made. */
    method RetryResized(i: nat, err: Status, adopted: Status) returns (d: Decision, evs: seq<Event>)
      ensures d == Decide(i, err, EffectiveRetryResize(retryResize), adopted)
      ensures evs == AdoptionEvents(delayRepeatResize, i, d)
    {
      if !IsMapResized(err) {
        return Stop, [];
      }
      var maxRetry := EffectiveRetryResize(retryResize);
      if maxRetry <= 0 {
        return Stop, [];
      }
      if maxRetry < i {
        return Stop, [];
      }
      var delay := 0;
      if i > 0 {
        delay := RepeatDelay(i, delayRepeatResize);
      }
      var e, ev := AdoptMapSize(0, delay, adopted);
      if e != Ok {
        return Panic(e.error), [ev];
      }
      return Retry, [ev];
    }

    /** runRetry: run, and while retryResized says so, adopt and run again.
        The outcome and the events are those of the driver specification,
        whose properties are proved in Policy. */
    method RunRetry(readonly: bool, txn: nat -> Status, adopt: nat -> Status)
      returns (out: Outcome, trace: seq<Event>)
      ensures Driven(out, trace) ==
              Drive(LockMode(noLock, readonly), EffectiveRetryResize(retryResize),
                    delayRepeatResize, txn, adopt, 0)
    {
      ghost var mode := LockMode(noLock, readonly);
      ghost var m := EffectiveRetryResize(retryResize);
      ghost var whole := Drive(mode, m, delayRepeatResize, txn, adopt, 0);
      trace := [];
      var i: nat := 0;
      while true
        invariant whole.outcome == Drive(mode, m, delayRepeatResize, txn, adopt, i).outcome
        invariant whole.trace == trace + Drive(mode, m, delayRepeatResize, txn, adopt, i).trace
        decreases if i <= m then m - i + 1 else 0
      {
        ghost var before := trace;
        var err, ev := Run(readonly, txn(i));
        var d, evs := RetryResized(i, err, adopt(i));
        DriveUnroll(mode, m, delayRepeatResize, txn, adopt, i, d);
        assert ev == Txn(mode);
        trace := trace + ([ev] + evs);
        match d
        case Stop =>
          return Returned(err), trace;
        case Panic(e) =>
          return Fatal(e), trace;
        case Retry =>
          ghost var rest := Drive(mode, m, delayRepeatResize, txn, adopt, i + 1);
          assert before + (([ev] + evs) + rest.trace) == trace + rest.trace;
          i := i + 1;
      }
    }

    /** RunTxn: a transaction is read-only when its flags carry MDB_RDONLY;
        its runs hold the lock exclusively exactly when the engine's flags
        carry NoLock and it is not read-only. */
    method RunTxn(flags: Flags, txn: nat -> Status, adopt: nat -> Status)
      returns (out: Outcome, trace: seq<Event>)
      requires Valid()
      ensures Driven(out, trace) ==
              Drive(LockMode(noLock, HasFlag(flags, Readonly)), EffectiveRetryResize(retryResize),
                    delayRepeatResize, txn, adopt, 0)
      ensures forall k :: 0 <= k < |trace| && trace[k].Txn? ==>
                (trace[k].mode == Exclusive <==> HasFlag(engineFlags, NoLock) && !HasFlag(flags, Readonly))
    {
      var readonly := flags & Readonly != 0;
      out, trace := RunRetry(readonly, txn, adopt);
      EventsWellFormed(LockMode(noLock, readonly), EffectiveRetryResize(retryResize),
                       delayRepeatResize, txn, adopt);
    }

    /** View: always read-only, so its runs never hold the lock exclusively. */
    method View(txn: nat -> Status, adopt: nat -> Status) returns (out: Outcome, trace: seq<Event>)
      requires Valid()
      ensures Driven(out, trace) ==
              Drive(Shared, EffectiveRetryResize(retryResize), delayRepeatResize, txn, adopt, 0)
      ensures forall k :: 0 <= k < |trace| && trace[k].Txn? ==> trace[k].mode == Shared
    {
      out, trace := RunRetry(true, txn, adopt);
      EventsWellFormed(Shared, EffectiveRetryResize(retryResize), delayRepeatResize, txn, adopt);
    }

    /** Update: always read-write, so its runs hold the lock exclusively
        exactly when the engine's flags carry NoLock. */
    method Update(txn: nat -> Status, adopt: nat -> Status) returns (out: Outcome, trace: seq<Event>)
      requires Valid()
      ensures Driven(out, trace) ==
              Drive(LockMode(noLock, false), EffectiveRetryResize(retryResize),
                    delayRepeatResize, txn, adopt, 0)
      ensures forall k :: 0 <= k < |trace| && trace[k].Txn? ==>
                (trace[k].mode == Exclusive <==> HasFlag(engineFlags, NoLock))
    {
      out, trace := RunRetry(false, txn, adopt);
      EventsWellFormed(LockMode(noLock, false), EffectiveRetryResize(retryResize),
                       delayRepeatResize, txn, adopt);
    }

    /** UpdateLocked: locked to its OS thread by the engine, but to this
        layer the same read-write request as Update. */
    method UpdateLocked(txn: nat -> Status, adopt: nat -> Status) returns (out: Outcome, trace: seq<Event>)
      requires Valid()
      ensures Driven(out, trace) ==
              Drive(LockMode(noLock, false), EffectiveRetryResize(retryResize),
                    delayRepeatResize, txn, adopt, 0)
      ensures forall k :: 0 <= k < |trace| && trace[k].Txn? ==>
                (trace[k].mode == Exclusive <==> HasFlag(engineFlags, NoLock))
    {
      out, trace := RunRetry(false, txn, adopt);
      EventsWellFormed(LockMode(noLock, false), EffectiveRetryResize(retryResize),
                       delayRepeatResize, txn, adopt);
    }
  }
}
