/**
 * The storage engine and the random source, as the harness sees them.
 *
 * SQLite itself is not modelled: every call the harness makes on a connection
 * handle (or on a transaction or statement derived from it) is appended to the
 * handle's log, and whether the call succeeds is decided by an oracle that may
 * depend on everything the handle has been asked before. Any deterministic
 * engine is such an oracle.
 */
module Engine {

  /** One call the harness makes on a handle, a transaction or a prepared statement. */
  datatype Call =
    | Begin                              // db.Begin()
    | Prepare                            // tx.Prepare("insert into t values(?, ?)")
    | Exec(key: int, value: string)      // stmt.Exec(i, s)
    | CloseStmt                          // stmt.Close()
    | Commit                             // tx.Commit()
    | Rollback                           // tx.Rollback()
    | Close                              // db.Close()

  /** What an operation of the harness returns: a nil error, or the error of the call that failed. */
  datatype Status = Ok | Failed(call: Call)

  /** An open connection handle (a *sql.DB). */
  class Handle {
    /** The engine's verdict on a call, given the calls this handle has already received. */
    const respond: (seq<Call>, Call) -> bool
    /** Every call made on this handle so far, in order. */
    var log: seq<Call>

    constructor (respond: (seq<Call>, Call) -> bool)
      ensures this.respond == respond && log == []
    {
      this.respond := respond;
      log := [];
    }

    /** Makes one call; the engine answers according to `respond`. */
    method Invoke(c: Call) returns (ok: bool)
      modifies this
      ensures log == old(log) + [c]
      ensures ok == respond(old(log), c)
    {
      ok := respond(log, c);
      log := log + [c];
    }
  }

  /** The process-wide pseudo-random source (math/rand): a stream of values and a draw counter. */
  class Rand {
    const source: nat -> nat
    var drawn: nat

    constructor (source: nat -> nat)
      ensures this.source == source && drawn == 0
    {
      this.source := source;
      drawn := 0;
    }

    /** rand.Intn(n): the next value of the stream, reduced to [0, n); Go panics when n <= 0. */
    method Intn(n: int) returns (r: int)
      requires n > 0
      modifies this
      ensures 0 <= r < n
      ensures r == source(old(drawn)) % n
      ensures drawn == old(drawn) + 1
    {
      r := source(drawn) % n;
      drawn := drawn + 1;
    }
  }
}

/** Small facts about sequences shared by the workloads. */
module Seqs {

  /** The index of the first `false` in `s`, or `|s|` when every element is `true`. */
  function FirstFalse(s: seq<bool>): (k: nat)
    ensures k <= |s|
    ensures forall j :: 0 <= j < k ==> s[j]
    ensures k < |s| ==> !s[k]
  {
    if s == [] then 0
    else if !s[0] then 0
    else 1 + FirstFalse(s[1..])
  }

  function Min(a: int, b: int): int
  {
    if a <= b then a else b
  }
}
