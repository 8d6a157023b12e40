/** The narrow part of the LMDB binding that the synchronisation layer calls.
    The engine itself (opening, flag changes, transactions, map-size changes)
    is foreign code: the model never computes what it does, it only receives
    the results those calls return. */
module Lmdb {

  /** Environment and transaction flags, a Go `uint` bitmask. */
  type Flags = bv64

  /** MDB_NOLOCK: the engine does no locking of its own. */
  const NoLock: Flags := 0x40_0000

  /** MDB_RDONLY: a read-only transaction. */
  const Readonly: Flags := 0x2_0000

  /** The system errno EINVAL, returned by a flags probe on an environment
      the engine does not accept yet. */
  const EINVAL: int := 22

  /** MDB_MAP_RESIZED, the engine's errno for "the map was resized by
      another process". */
  const MapResizedErrno: int := -30785

  /** A failure coming from the engine: the distinguished "map resized"
      failure, or any other failure with its errno. */
  datatype Error = MapResized | Errno(code: int)

  /** A non-nil Go `error` from the engine, in one spelling only: the map
      resized failure is always `MapResized`, never `Errno(MapResizedErrno)`,
      so that `IsMapResized` recognises every error that carries that errno. */
  type EngineError = e: Error | e != Errno(MapResizedErrno) witness MapResized

  /** A Go `error` value: `Ok` stands for nil. */
  datatype Status = Ok | Fail(error: EngineError)

  /** `lmdb.IsMapResized`. */
  predicate IsMapResized(st: Status) {
    st == Fail(MapResized)
  }

  /** The engine error for a nonzero return code of the engine: the map
      resized failure for MDB_MAP_RESIZED, an errno failure for any other
      code. The code can be read back, and the error is recognised as map
      resized exactly when the code was MDB_MAP_RESIZED. */
  function ErrorOf(code: int): (e: EngineError)
    ensures CodeOf(e) == code
    ensures IsMapResized(Fail(e)) <==> code == MapResizedErrno
  {
    if code == MapResizedErrno then MapResized else Errno(code)
  }

  /** The engine's return code behind an engine error. */
  function CodeOf(e: EngineError): int {
    match e
    case MapResized => MapResizedErrno
    case Errno(code) => code
  }

  /** Every engine error is the translation of its own return code, so no
      error escapes `ErrorOf`'s spelling. */
  lemma ErrorOfCodeOf(e: EngineError)
    ensures ErrorOf(CodeOf(e)) == e
  {
  }

  /** `lmdb.IsErrnoSys(err, errno)`. */
  predicate IsErrnoSys(st: Status, errno: int) {
    st.Fail? && st.error == Errno(errno)
  }

  /** `flags & bit != 0`. */
  predicate HasFlag(flags: Flags, bit: Flags) {
    flags & bit != 0
  }
}
