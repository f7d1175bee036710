/**
 * The aggregation in printSqliteMemoryUsageForAllDbs: for every connection and
 * every one of five status opcodes, ask sqlite3_db_status for the opcode's
 * current value and add it into a map from opcode to a 64-bit total. The
 * first return code other than SQLITE_OK aborts the report (the source
 * panics). What the status call answers is an oracle; printing is not
 * modelled.
 */
module StatusReport {

  newtype int32 = x: int | -0x8000_0000 <= x < 0x8000_0000
  newtype int64 = x: int | -0x8000_0000_0000_0000 <= x < 0x8000_0000_0000_0000

  /** SQLITE_OK and the SQLITE_DBSTATUS_* opcodes of sqlite3.h. */
  const SqliteOk: int32 := 0
  const LookasideUsed: int32 := 0
  const CacheUsed: int32 := 1
  const SchemaUsed: int32 := 2
  const StmtUsed: int32 := 3
  const CacheSpill: int32 := 12

  /** The opcodes asked for every connection, in the order they are asked. */
  const Ops: seq<int32> := [CacheUsed, LookasideUsed, SchemaUsed, StmtUsed, CacheSpill]

  /** A native connection handle. */
  type Conn = nat

  /** What sqlite3_db_status(db, op, &current, &highwater, 0) answers. */
  datatype Reply = Reply(rc: int32, current: int32, highwater: int32)

  /** The result of the aggregation: the totals, or the first probe (connection index, opcode index) whose
      return code was not SQLITE_OK, with that code. */
  datatype Report = Totals(totals: map<int32, int64>) | Aborted(conn: nat, op: nat, rc: int32)

  /** int64(a) + int64(b) in Go: the sum wrapped into 64-bit two's complement. */
  function Add64(a: int64, b: int64): (r: int64)
    ensures -0x8000_0000_0000_0000 <= a as int + b as int < 0x8000_0000_0000_0000 ==> r as int == a as int + b as int
  {
    var m := (a as int + b as int) % 0x1_0000_0000_0000_0000;
    (if m >= 0x8000_0000_0000_0000 then m - 0x1_0000_0000_0000_0000 else m) as int64
  }

  /** totalPerOp[op] after the connections `cs` were added in order, starting from the missing key's zero. */
  function Total(cs: seq<Conn>, status: (Conn, int32) -> Reply, op: int32): int64
    decreases |cs|
  {
    if cs == [] then 0 else Add64(Total(cs[..|cs| - 1], status, op), status(cs[|cs| - 1], op).current as int64)
  }

  /** The mathematical sum of the current values of `op` over `cs`. */
  function Sum(cs: seq<Conn>, status: (Conn, int32) -> Reply, op: int32): int
    decreases |cs|
  {
    if cs == [] then 0 else Sum(cs[..|cs| - 1], status, op) + status(cs[|cs| - 1], op).current as int
  }

  /** The probe of connection `i` with the k-th opcode succeeded. */
  predicate ProbeOk(conns: seq<Conn>, status: (Conn, int32) -> Reply, i: int, k: int)
    requires 0 <= i < |conns| && 0 <= k < |Ops|
  {
    status(conns[i], Ops[k]).rc == SqliteOk
  }

  lemma OpsDistinct()
    ensures forall a, b :: 0 <= a < b < |Ops| ==> Ops[a] != Ops[b]
  {
  }

  /** Every probe of connection `i` succeeded. */
  predicate ConnOk(conns: seq<Conn>, status: (Conn, int32) -> Reply, i: int)
    requires 0 <= i < |conns|
  {
    forall k :: 0 <= k < |Ops| ==> ProbeOk(conns, status, i, k)
  }

  /** The stats block the report allocates once and hands to every status call. */
  class DbStats {
    var current: int32
    var highwater: int32

    constructor ()
      ensures current == 0 && highwater == 0
    {
      current := 0;
      highwater := 0;
    }
  }

  /** sqlite3_db_status: on success it writes the opcode's current and highwater values into `stats`. */
  method DbStatus(status: (Conn, int32) -> Reply, conn: Conn, op: int32, stats: DbStats) returns (rc: int32)
    modifies stats
    ensures rc == status(conn, op).rc
    ensures rc == SqliteOk ==> stats.current == status(conn, op).current && stats.highwater == status(conn, op).highwater
    ensures rc != SqliteOk ==> stats.current == old(stats.current) && stats.highwater == old(stats.highwater)
  {
    var reply := status(conn, op);
    rc := reply.rc;
    if rc == SqliteOk {
      stats.current := reply.current;
      stats.highwater := reply.highwater;
    }
  }

  /** What probing one connection gives: the updated totals, or the index of the opcode whose probe failed. */
  datatype Probe = AllOk(totals: map<int32, int64>) | FailedOp(op: nat, rc: int32)

  /** The two loops of printSqliteMemoryUsageForAllDbs: connections in order, opcodes in order, each
      current value added into its opcode's total; the first failing probe aborts. */
  method Aggregate(conns: seq<Conn>, status: (Conn, int32) -> Reply) returns (report: Report)
    ensures report.Totals? <==> forall i, k :: 0 <= i < |conns| && 0 <= k < |Ops| ==> ProbeOk(conns, status, i, k)
    ensures report.Totals? ==> forall op :: op in report.totals <==> conns != [] && op in Ops
    ensures report.Totals? ==> forall op :: op in report.totals ==> report.totals[op] == Total(conns, status, op)
    ensures report.Aborted? ==>
              && report.conn < |conns| && report.op < |Ops|
              && !ProbeOk(conns, status, report.conn, report.op)
              && report.rc == status(conns[report.conn], Ops[report.op]).rc
              && (forall i, k :: 0 <= i < |conns| && 0 <= k < |Ops| && (i < report.conn || (i == report.conn && k < report.op))
                    ==> ProbeOk(conns, status, i, k))
  {
    var totals: map<int32, int64> := map[];
    var stats := new DbStats();
    var i := 0;
    while i < |conns|
      invariant 0 <= i <= |conns|
      invariant forall i' :: 0 <= i' < i ==> ConnOk(conns, status, i')
      invariant forall op :: op in totals <==> i > 0 && op in Ops
      invariant forall op :: op in totals ==> totals[op] == Total(conns[..i], status, op)
    {
      var probe := ProbeConnection(conns, status, i, stats, totals);
      if probe.FailedOp? {
        forall i', k | 0 <= i' < |conns| && 0 <= k < |Ops| && (i' < i || (i' == i && k < probe.op))
          ensures ProbeOk(conns, status, i', k)
        {
          if i' < i {
            assert ConnOk(conns, status, i');
          }
        }
        return Aborted(i, probe.op, probe.rc);
      }
      totals := probe.totals;
      i := i + 1;
    }
    assert conns[..|conns|] == conns;
    forall i', k | 0 <= i' < |conns| && 0 <= k < |Ops|
      ensures ProbeOk(conns, status, i', k)
    {
      assert ConnOk(conns, status, i');
    }
    return Totals(totals);
  }

  /** The inner loop for connection `i`: each opcode in order, its current value added into its total. */
  method ProbeConnection(conns: seq<Conn>, status: (Conn, int32) -> Reply, i: nat, stats: DbStats,
                         totals: map<int32, int64>) returns (probe: Probe)
    requires i < |conns|
    requires forall op :: op in totals <==> i > 0 && op in Ops
    requires forall op :: op in totals ==> totals[op] == Total(conns[..i], status, op)
    modifies stats
    ensures probe.AllOk? <==> ConnOk(conns, status, i)
    ensures probe.AllOk? ==> forall op :: op in probe.totals <==> op in Ops
    ensures probe.AllOk? ==> forall op :: op in probe.totals ==> probe.totals[op] == Total(conns[..i + 1], status, op)
    ensures probe.FailedOp? ==>
              && probe.op < |Ops| && !ProbeOk(conns, status, i, probe.op)
              && probe.rc == status(conns[i], Ops[probe.op]).rc
              && forall k :: 0 <= k < probe.op ==> ProbeOk(conns, status, i, k)
  {
    OpsDistinct();
    var next := totals;
    var k := 0;
    while k < |Ops|
      invariant 0 <= k <= |Ops|
      invariant forall k' :: 0 <= k' < k ==> ProbeOk(conns, status, i, k')
      invariant forall op :: op in next ==> op in Ops
      invariant forall k' :: 0 <= k' < |Ops| ==> (Ops[k'] in next <==> i > 0 || k' < k)
      invariant forall k' :: 0 <= k' < k ==> Ops[k'] in next && next[Ops[k']] == Total(conns[..i + 1], status, Ops[k'])
      invariant forall k' :: k <= k' < |Ops| && Ops[k'] in next ==> next[Ops[k']] == Total(conns[..i], status, Ops[k'])
    {
      var op := Ops[k];
      stats.current := 0;
      stats.highwater := 0;
      var rc := DbStatus(status, conns[i], op, stats);
      if rc != SqliteOk {
        assert !ProbeOk(conns, status, i, k);
        return FailedOp(k, rc);
      }
      var before := if op in next then next[op] else 0;
      TotalStep(conns, status, i, op);
      assert forall k' :: 0 <= k' < |Ops| && k' != k ==> Ops[k'] != op;
      next := next[op := Add64(before, stats.current as int64)];
      k := k + 1;
    }
    forall op | op in next
      ensures next[op] == Total(conns[..i + 1], status, op)
    {
      var k' :| 0 <= k' < |Ops| && Ops[k'] == op;
    }
    assert ConnOk(conns, status, i);
    return AllOk(next);
  }

  /** Adding connection `i` to the total over the connections before it gives the total over the first i + 1. */
  lemma TotalStep(conns: seq<Conn>, status: (Conn, int32) -> Reply, i: nat, op: int32)
    requires i < |conns|
    ensures Total(conns[..i + 1], status, op) == Add64(Total(conns[..i], status, op), status(conns[i], op).current as int64)
  {
    assert conns[..i + 1][..i] == conns[..i];
  }

  /** With at most 2^32 connections no total wraps: each total is the exact sum of the current values. */
  lemma {:induction false} TotalIsSum(cs: seq<Conn>, status: (Conn, int32) -> Reply, op: int32)
    requires |cs| <= 0x1_0000_0000
    ensures Total(cs, status, op) as int == Sum(cs, status, op)
    ensures -(|cs| * 0x8000_0000) <= Sum(cs, status, op) <= |cs| * 0x7fff_ffff
    decreases |cs|
  {
    if cs != [] {
      TotalIsSum(cs[..|cs| - 1], status, op);
    }
  }
}
