/**
 * The read workload: selects(db, maxValue).
 *
 * The query either fails or yields a cursor. Each row the cursor moves onto
 * is scanned, and the scan succeeds or fails. The cursor stops when its rows
 * are exhausted, or because iterating broke, in which case rows.Err() would
 * report the error. The SQL itself ("select * from t WHERE i < ?") is not
 * modelled: the rows a query yields are the engine's answer.
 */
module ReadWorkload {
  import opened Seqs

  /** Why rows.Next() returned false. */
  datatype Stop = Exhausted | Broken

  /** The engine's answer to db.Query: an error, or a cursor whose k-th row scans or not. */
  datatype Answer = QueryFailed | Cursor(scans: seq<bool>, stop: Stop)

  datatype ReadError = QueryError | ScanError(row: nat) | IterationError
  datatype ReadStatus = ReadOk | ReadFailed(err: ReadError)

  /** What a read did: what it returned and how many rows the cursor moved onto. */
  datatype ReadResult = ReadResult(status: ReadStatus, consumed: nat)

  /** The cursor returned by db.Query (a *sql.Rows). */
  class Rows {
    const scans: seq<bool>
    const stop: Stop
    /** The number of rows Next has moved onto. */
    var read: nat
    /** Whether Next has returned false: only then does the iteration have a final error. */
    var ended: bool
    var closed: bool

    constructor (scans: seq<bool>, stop: Stop)
      ensures this.scans == scans && this.stop == stop && read == 0 && !ended && !closed
    {
      this.scans := scans;
      this.stop := stop;
      read := 0;
      ended := false;
      closed := false;
    }

    /** rows.Next(): moves onto the next row, if there is one and the cursor is open. */
    method Next() returns (more: bool)
      modifies this
      ensures more == (!old(closed) && old(read) < |scans|)
      ensures read == if more then old(read) + 1 else old(read)
      ensures ended == (old(ended) || !more) && closed == old(closed)
    {
      more := !closed && read < |scans|;
      if more {
        read := read + 1;
      } else {
        ended := true;
      }
    }

    /** rows.Scan(...): reads the current row. */
    method Scan() returns (ok: bool)
      requires 0 < read <= |scans|
      ensures ok == scans[read - 1]
    {
      ok := scans[read - 1];
    }

    /** rows.Err(): the error that ended the iteration, once Next has returned false. */
    method Err() returns (broken: bool)
      ensures broken == (ended && stop == Broken)
    {
      broken := ended && stop == Broken;
    }

    /** rows.Close(). */
    method Close()
      modifies this
      ensures closed && read == old(read) && ended == old(ended)
    {
      closed := true;
    }
  }

  /** selects as written: the query error, or the first failing scan, or success once Next returns false. */
  function Drain(q: Answer): (r: ReadResult)
    ensures q.QueryFailed? ==> r == ReadResult(ReadFailed(QueryError), 0)
    ensures q.Cursor? ==> r.consumed <= |q.scans| && r.status != ReadFailed(QueryError)
    ensures q.Cursor? ==> (r.status == ReadOk <==> forall k :: 0 <= k < |q.scans| ==> q.scans[k])
    ensures r.status == ReadOk ==> r.consumed == |q.scans|
    ensures r.status.ReadFailed? && r.status.err.ScanError? ==>
              && q.Cursor?
              && r.status.err.row < |q.scans| && !q.scans[r.status.err.row]
              && (forall j :: 0 <= j < r.status.err.row ==> q.scans[j])
              && r.consumed == r.status.err.row + 1
    ensures r.status != ReadFailed(IterationError)
  {
    match q
    case QueryFailed => ReadResult(ReadFailed(QueryError), 0)
    case Cursor(scans, _) =>
      var k := FirstFalse(scans);
      if k < |scans| then ReadResult(ReadFailed(ScanError(k)), k + 1)
      else ReadResult(ReadOk, |scans|)
  }

  /** selects as evidently intended: as Drain, but a cursor that broke reports its error after the loop. */
  function DrainChecked(q: Answer): (r: ReadResult)
    ensures q.Cursor? && q.stop == Exhausted ==> r == Drain(q)
    ensures r.status != ReadOk ==> r.status.err != IterationError ==> r == Drain(q)
    ensures r.status == ReadOk <==> q.Cursor? && q.stop == Exhausted && forall k :: 0 <= k < |q.scans| ==> q.scans[k]
    ensures r.status == ReadFailed(IterationError) <==>
              q.Cursor? && q.stop == Broken && forall k :: 0 <= k < |q.scans| ==> q.scans[k]
    ensures r.consumed == Drain(q).consumed
  {
    var r := Drain(q);
    match q
    case Cursor(_, Broken) =>
      if r.status == ReadOk then ReadResult(ReadFailed(IterationError), r.consumed) else r
    case _ => r
  }

  /** The for rows.Next() loop of selects: scan each row, return the first scan error. */
  method DrainRows(rows: Rows) returns (err: ReadStatus)
    requires rows.read == 0 && !rows.ended && !rows.closed
    modifies rows
    ensures var r := Drain(Cursor(rows.scans, rows.stop));
            err == r.status && rows.read == r.consumed && !rows.closed
    ensures rows.ended <==> err == ReadOk
  {
    ghost var r := Drain(Cursor(rows.scans, rows.stop));
    ghost var k := FirstFalse(rows.scans);
    while true
      invariant !rows.closed && !rows.ended && rows.read <= k
      invariant forall j :: 0 <= j < rows.read ==> rows.scans[j]
      decreases |rows.scans| - rows.read
    {
      var more := rows.Next();
      if !more {
        return ReadOk;
      }
      var ok := rows.Scan();
      if !ok {
        return ReadFailed(ScanError(rows.read - 1));
      }
    }
  }

  /** selects: query, drain the cursor, close it (the deferred rows.Close()). */
  method Selects(q: Answer) returns (err: ReadStatus, rows: Rows?)
    ensures err == Drain(q).status
    ensures q.QueryFailed? <==> rows == null
    ensures rows != null ==> rows.scans == q.scans && rows.stop == q.stop
    ensures rows != null ==> rows.closed && rows.read == Drain(q).consumed
  {
    if q.QueryFailed? {
      return ReadFailed(QueryError), null;
    }
    rows := new Rows(q.scans, q.stop);
    err := DrainRows(rows);
    rows.Close();
  }

  /** selects with the rows.Err() check after the loop. */
  method SelectsChecked(q: Answer) returns (err: ReadStatus, rows: Rows?)
    ensures err == DrainChecked(q).status
    ensures q.QueryFailed? <==> rows == null
    ensures rows != null ==> rows.scans == q.scans && rows.stop == q.stop
    ensures rows != null ==> rows.closed && rows.read == DrainChecked(q).consumed
  {
    if q.QueryFailed? {
      return ReadFailed(QueryError), null;
    }
    rows := new Rows(q.scans, q.stop);
    err := DrainRows(rows);
    if err == ReadOk {
      var broken := rows.Err();
      if broken {
        err := ReadFailed(IterationError);
      }
    }
    rows.Close();
  }

  /** As written, a cursor whose iteration breaks after rows that all scanned is reported as a success,
      although the read stopped early; the checked version reports the iteration error. */
  lemma BrokenCursorUnreported(scans: seq<bool>)
    requires forall k :: 0 <= k < |scans| ==> scans[k]
    ensures Drain(Cursor(scans, Broken)).status == ReadOk
    ensures Drain(Cursor(scans, Broken)) == Drain(Cursor(scans, Exhausted))
    ensures DrainChecked(Cursor(scans, Broken)).status == ReadFailed(IterationError)
  {
  }
}
