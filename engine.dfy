/** What the SQLite engine can do to a store's transaction beyond what its statements
    compute: the errors it reports, and where in a transaction it reports them. Both
    feed stores (internal/store/store.go and internal/store/sqlite.go) share it. */
module Engine {

  /** The errors the SQLite driver reports to a store. */
  datatype DbError =
    | Busy                          // SQLITE_BUSY: another connection holds the write lock
    | ForeignKeyViolation           // "FOREIGN KEY constraint failed"
    | UniqueViolation               // "UNIQUE constraint failed"
    | NoRows                        // sql.ErrNoRows: a single-row query found no row
    | EngineError(message: string)  // any other failure of the engine (I/O, disk full, ...)

  /** What the engine does to one transaction attempt, beyond what the statements
      themselves decide: nothing, a failing BEGIN, a failure reported by the statement
      with the given index (counted from 0 within the body), or a failing COMMIT. */
  datatype Interference =
    | Clean
    | BeginFails(error: DbError)
    | StatementFails(at: nat, error: DbError)
    | CommitFails(error: DbError)

  predicate Fires(inj: Interference, stmt: nat)
  {
    inj.StatementFails? && inj.at == stmt
  }

  /** The interference that attempt `n` of a transaction meets; attempts beyond the
      given list run clean. */
  function AttemptAt(attempts: seq<Interference>, n: nat): Interference
  {
    if n < |attempts| then attempts[n] else Clean
  }

}
