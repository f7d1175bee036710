/**
 * The write workload: inserts(db, n, commitEvery, minStringSize, maxStringSize).
 *
 * Keys 0..n-1 are inserted in transactions of at most commitEvery rows; each
 * transaction is Begin, Prepare, one Exec per row, statement Close, Commit.
 * A failing Prepare or Exec rolls the transaction back, a failing Commit is
 * returned as it is, and the first failure ends the run.
 *
 * The behaviour is specified by three functions, one per loop level
 * (ExecRows for the inner loop, Batch for one transaction, InsertsFrom for
 * the outer loop); the method Inserts is proved to make exactly the calls
 * they describe. What the source promises is then proved about the
 * functions, against reference shapes in which the random values are erased.
 */
module WriteWorkload {
  import opened Engine
  import opened Seqs
  import RandomText

  /** The arguments of inserts other than the handle. */
  datatype Params = Params(n: int, commitEvery: int, minSize: int, maxSize: int)

  /** rand.Intn(maxStringSize - minStringSize) does not panic and the length handed to randomString is not negative. */
  predicate SizesOk(p: Params)
  {
    0 <= p.minSize < p.maxSize
  }

  /** The sizes are only used once a row is inserted, which needs rows to insert and room in a transaction. */
  predicate ValidSizes(p: Params)
  {
    p.n > 0 && p.commitEvery > 0 ==> SizesOk(p)
  }

  /** The outer loop only advances when a transaction has room for a row. */
  predicate Advances(p: Params)
  {
    p.n <= 0 || p.commitEvery > 0
  }

  /** What a stretch of inserts did: the calls it made, the position of the random stream after it,
      the next key to insert, and what it returns. */
  datatype Progress = Progress(calls: seq<Call>, drawn: nat, next: int, status: Status)

  function Prepend(t: seq<Call>, r: Progress): Progress
  {
    r.(calls := t + r.calls)
  }

  lemma PrependTwice(a: seq<Call>, b: seq<Call>, r: Progress)
    ensures Prepend(a, Prepend(b, r)) == Prepend(a + b, r)
  {
    assert a + (b + r.calls) == (a + b) + r.calls;
  }

  /** The key at which the transaction that starts at key `i` stops taking rows: it takes commitEvery rows,
      or fewer only when it is the last. */
  function BatchEnd(p: Params, i: int): (e: int)
    ensures p.commitEvery > 0 && i < p.n ==> i < e <= i + p.commitEvery && e <= p.n && (e < p.n ==> e == i + p.commitEvery)
    ensures p.commitEvery <= 0 ==> e == i
  {
    if p.commitEvery <= 0 then i else Min(p.n, i + p.commitEvery)
  }

  /** A value handed to Exec: its length lies in [minStringSize, maxStringSize) and it is alphanumeric. */
  predicate GoodValue(p: Params, v: string)
  {
    p.minSize <= |v| < p.maxSize && forall k :: 0 <= k < |v| ==> RandomText.IsAlnum(v[k])
  }

  predicate GoodValues(p: Params, t: seq<Call>)
  {
    forall k :: 0 <= k < |t| && t[k].Exec? ==> GoodValue(p, t[k].value)
  }

  /** Every call the engine could receive succeeds. */
  ghost predicate AlwaysOk(respond: (seq<Call>, Call) -> bool)
  {
    forall h, c :: respond(h, c)
  }

  // ---------------------------------------------------------------------------
  // The specification functions, one per loop level of inserts.
  // ---------------------------------------------------------------------------

  /** The length rand.Intn(maxStringSize-minStringSize)+minStringSize drawn at stream position `drawn`. */
  function RowLength(source: nat -> nat, p: Params, drawn: nat): nat
    requires SizesOk(p)
  {
    source(drawn) % (p.maxSize - p.minSize) + p.minSize
  }

  /** The Exec call for key `i` when the random stream stands at `drawn`: a length, then that many characters. */
  function RowCall(source: nat -> nat, p: Params, drawn: nat, i: int): Call
    requires SizesOk(p)
  {
    Exec(i, RandomText.RandomChars(source, drawn + 1, RowLength(source, p, drawn)))
  }

  /** Where the random stream stands once the row drawn at `drawn` is built. */
  function RowDrawn(source: nat -> nat, p: Params, drawn: nat): nat
    requires SizesOk(p)
  {
    drawn + 1 + RowLength(source, p, drawn)
  }

  /** The inner loop from key `i`, with the statement prepared, until the transaction's last key `end`. */
  function ExecRows(respond: (seq<Call>, Call) -> bool, source: nat -> nat, p: Params,
                    hist: seq<Call>, drawn: nat, i: int, end: int): (r: Progress)
    requires i <= end
    requires i < end ==> SizesOk(p)
    decreases end - i
    ensures i <= r.next <= end
    ensures r.status.Ok? ==> r.next == end
  {
    if i < end then
      var c := RowCall(source, p, drawn, i);
      if respond(hist, c) then
        Prepend([c], ExecRows(respond, source, p, hist + [c], RowDrawn(source, p, drawn), i + 1, end))
      else
        Progress([c, CloseStmt, Rollback], RowDrawn(source, p, drawn), i, Failed(c))
    else
      Progress([], drawn, i, Ok)
  }

  /** One pass of the outer loop: one transaction starting at key `i`. */
  function Batch(respond: (seq<Call>, Call) -> bool, source: nat -> nat, p: Params,
                 hist: seq<Call>, drawn: nat, i: int): (r: Progress)
    requires ValidSizes(p) && 0 <= i < p.n
    ensures i <= r.next <= BatchEnd(p, i)
    ensures r.status.Ok? ==> r.next == BatchEnd(p, i)
  {
    if !respond(hist, Begin) then
      Progress([Begin], drawn, i, Failed(Begin))
    else if !respond(hist + [Begin], Prepare) then
      Progress([Begin, Prepare, Rollback], drawn, i, Failed(Prepare))
    else
      var rows := ExecRows(respond, source, p, hist + [Begin, Prepare], drawn, i, BatchEnd(p, i));
      if rows.status.Failed? then
        Prepend([Begin, Prepare], rows)
      else
        var calls := [Begin, Prepare] + rows.calls + [CloseStmt, Commit];
        var committed := respond(hist + [Begin, Prepare] + rows.calls + [CloseStmt], Commit);
        Progress(calls, rows.drawn, rows.next, if committed then Ok else Failed(Commit))
  }

  /** The outer loop from key `i` to the end of the run. */
  function InsertsFrom(respond: (seq<Call>, Call) -> bool, source: nat -> nat, p: Params,
                       hist: seq<Call>, drawn: nat, i: int): (r: Progress)
    requires ValidSizes(p) && Advances(p) && 0 <= i
    decreases p.n - i
    ensures r.status.Ok? ==> r.next == if i < p.n then p.n else i
  {
    if i >= p.n then
      Progress([], drawn, i, Ok)
    else
      var b := Batch(respond, source, p, hist, drawn, i);
      if b.status.Failed? then b
      else Prepend(b.calls, InsertsFrom(respond, source, p, hist + b.calls, b.drawn, b.next))
  }

  // ---------------------------------------------------------------------------
  // Reference shapes: the calls of a run with the random values erased.
  // ---------------------------------------------------------------------------

  function EraseCall(c: Call): Call
  {
    if c.Exec? then Exec(c.key, "") else c
  }

  function Erase(t: seq<Call>): (r: seq<Call>)
    ensures |r| == |t|
  {
    seq(|t|, k requires 0 <= k < |t| => EraseCall(t[k]))
  }

  lemma EraseAppend(a: seq<Call>, b: seq<Call>)
    ensures Erase(a + b) == Erase(a) + Erase(b)
  {
  }

  /** Exec calls for the keys i, i+1, ..., m-1, in that order. */
  function ExecSkel(i: int, m: int): seq<Call>
    decreases m - i
  {
    if i >= m then [] else [Exec(i, "")] + ExecSkel(i + 1, m)
  }

  /** A committed transaction holding the keys i..m-1. */
  function BatchSkel(i: int, m: int): seq<Call>
  {
    [Begin, Prepare] + ExecSkel(i, m) + [CloseStmt, Commit]
  }

  /** Committed transactions from key `i` up to key `m`, each taking commitEvery keys or what is left of n. */
  function Skeleton(p: Params, i: int, m: int): seq<Call>
    requires p.commitEvery > 0 && m <= p.n
    decreases m - i
  {
    if i >= m then [] else BatchSkel(i, BatchEnd(p, i)) + Skeleton(p, BatchEnd(p, i), m)
  }

  /** `failed` can end the transaction that starts at key `i`. */
  predicate FailsAt(p: Params, i: int, failed: Call)
  {
    match failed
    case Begin => true
    case Prepare => true
    case Exec(k, _) => i <= k < BatchEnd(p, i)
    case Commit => true
    case _ => false
  }

  /** The transaction that starts at key `i` and ends with the failure of `failed`. */
  function FailedBatch(p: Params, i: int, failed: Call): seq<Call>
  {
    match failed
    case Begin => [Begin]
    case Prepare => [Begin, Prepare, Rollback]
    case Exec(k, _) => [Begin, Prepare] + ExecSkel(i, k) + [Exec(k, ""), CloseStmt, Rollback]
    case Commit => BatchSkel(i, BatchEnd(p, i))
    case _ => []
  }

  // ---------------------------------------------------------------------------
  // The harness code.
  // ---------------------------------------------------------------------------

  /** inserts: the outer loop, one transaction per pass, until n keys are in or a call fails. */
  method Inserts(db: Handle, rng: Rand, n: int, commitEvery: int, minStringSize: int, maxStringSize: int)
    returns (err: Status)
    requires ValidSizes(Params(n, commitEvery, minStringSize, maxStringSize))
    requires Advances(Params(n, commitEvery, minStringSize, maxStringSize))
    modifies db, rng
    ensures var r := InsertsFrom(db.respond, rng.source, Params(n, commitEvery, minStringSize, maxStringSize),
                                 old(db.log), old(rng.drawn), 0);
            db.log == old(db.log) + r.calls && rng.drawn == r.drawn && err == r.status
  {
    var p := Params(n, commitEvery, minStringSize, maxStringSize);
    ghost var goal := InsertsFrom(db.respond, rng.source, p, db.log, rng.drawn, 0);
    ghost var done: seq<Call> := [];
    var i := 0;
    while i < n
      invariant 0 <= i
      invariant db.log == old(db.log) + done
      invariant goal == Prepend(done, InsertsFrom(db.respond, rng.source, p, db.log, rng.drawn, i))
      decreases n - i
    {
      ghost var log0 := db.log;
      ghost var b := Batch(db.respond, rng.source, p, log0, rng.drawn, i);
      ghost var rest := InsertsFrom(db.respond, rng.source, p, log0 + b.calls, b.drawn, b.next);
      InsertsFromStep(db.respond, rng.source, p, log0, rng.drawn, i);
      err, i := Transaction(db, rng, p, i);
      if err.Failed? {
        assert goal == Prepend(done, b);
        SeqAssoc(old(db.log), done, b.calls);
        return;
      }
      SeqAssoc(old(db.log), done, b.calls);
      PrependTwice(done, b.calls, rest);
      done := done + b.calls;
    }
    assert goal == Prepend(done, Progress([], rng.drawn, i, Ok));
    assert done + [] == done;
    return Ok;
  }

  /** One pass of the outer loop of inserts: Begin, Prepare, the inner loop of Execs, statement Close, Commit. */
  method Transaction(db: Handle, rng: Rand, p: Params, i: int) returns (err: Status, next: int)
    requires ValidSizes(p) && 0 <= i < p.n
    modifies db, rng
    ensures var b := Batch(db.respond, rng.source, p, old(db.log), old(rng.drawn), i);
            db.log == old(db.log) + b.calls && rng.drawn == b.drawn && err == b.status && next == b.next
  {
    ghost var log0, drawn0 := db.log, rng.drawn;
    ghost var b := Batch(db.respond, rng.source, p, log0, drawn0, i);
    var ok := db.Invoke(Begin);
    if !ok {
      assert b == Progress([Begin], drawn0, i, Failed(Begin));
      return Failed(Begin), i;
    }
    ok := db.Invoke(Prepare);
    if !ok {
      var _ := db.Invoke(Rollback);
      assert b == Progress([Begin, Prepare, Rollback], drawn0, i, Failed(Prepare));
      return Failed(Prepare), i;
    }
    assert db.log == log0 + [Begin, Prepare];
    ghost var rows := ExecRows(db.respond, rng.source, p, db.log, drawn0, i, BatchEnd(p, i));
    err, next := InsertRows(db, rng, p, i);
    if err.Failed? {
      assert b == Prepend([Begin, Prepare], rows);
      SeqAssoc(log0, [Begin, Prepare], rows.calls);
      return;
    }
    ghost var body := db.log;
    var _ := db.Invoke(CloseStmt);
    ok := db.Invoke(Commit);
    assert db.log == body + [CloseStmt, Commit];
    SeqAssoc(log0, [Begin, Prepare], rows.calls);
    SeqAssoc(log0, [Begin, Prepare] + rows.calls, [CloseStmt, Commit]);
    if !ok {
      return Failed(Commit), next;
    }
    return Ok, next;
  }

  /** The inner loop of inserts: one Exec per key until the transaction is full or the keys run out. */
  method InsertRows(db: Handle, rng: Rand, p: Params, i: int) returns (err: Status, next: int)
    requires ValidSizes(p) && 0 <= i < p.n
    modifies db, rng
    ensures var r := ExecRows(db.respond, rng.source, p, old(db.log), old(rng.drawn), i, BatchEnd(p, i));
            db.log == old(db.log) + r.calls && rng.drawn == r.drawn && err == r.status && next == r.next
  {
    ghost var log0 := db.log;
    ghost var end := BatchEnd(p, i);
    ghost var rows := ExecRows(db.respond, rng.source, p, log0, rng.drawn, i, end);
    ghost var taken: seq<Call> := [];
    assert [] + rows.calls == rows.calls;
    next := i;
    var j := 0;
    while j < p.commitEvery && next < p.n
      invariant next == i + j && next <= end
      invariant db.log == log0 + taken
      invariant rows == Prepend(taken, ExecRows(db.respond, rng.source, p, db.log, rng.drawn, next, end))
      decreases p.n - next
    {
      ghost var before, drawn1 := db.log, rng.drawn;
      ExecRowsStep(db.respond, rng.source, p, before, drawn1, next, end);
      var ok, c := InsertRow(db, rng, p, next);
      if !ok {
        assert rows == Prepend(taken, Progress([c, CloseStmt, Rollback], rng.drawn, next, Failed(c)));
        SeqAssoc(log0, taken, [c, CloseStmt, Rollback]);
        return Failed(c), next;
      }
      PrependTwice(taken, [c], ExecRows(db.respond, rng.source, p, db.log, rng.drawn, next + 1, end));
      taken := taken + [c];
      next := next + 1;
      j := j + 1;
    }
    assert rows == Progress(taken + [], rng.drawn, next, Ok);
    assert taken + [] == taken;
    err := Ok;
  }

  /** The body of the inner loop: draw a length, build the string, Exec; on failure close the statement and roll back. */
  method InsertRow(db: Handle, rng: Rand, p: Params, i: int) returns (ok: bool, c: Call)
    requires SizesOk(p)
    modifies db, rng
    ensures c == RowCall(rng.source, p, old(rng.drawn), i)
    ensures rng.drawn == RowDrawn(rng.source, p, old(rng.drawn))
    ensures ok == db.respond(old(db.log), c)
    ensures db.log == old(db.log) + if ok then [c] else [c, CloseStmt, Rollback]
  {
    var size := rng.Intn(p.maxSize - p.minSize);
    var s := RandomText.RandomString(rng, size + p.minSize);
    c := Exec(i, s);
    ok := db.Invoke(c);
    if !ok {
      var _ := db.Invoke(CloseStmt);
      var _ := db.Invoke(Rollback);
    }
  }

  lemma SeqAssoc(a: seq<Call>, b: seq<Call>, c: seq<Call>)
    ensures a + (b + c) == a + b + c
  {
  }

  /** One pass of the outer loop, as InsertsFrom describes it. */
  lemma InsertsFromStep(respond: (seq<Call>, Call) -> bool, source: nat -> nat, p: Params,
                        hist: seq<Call>, drawn: nat, i: int)
    requires ValidSizes(p) && Advances(p) && 0 <= i < p.n
    ensures var b := Batch(respond, source, p, hist, drawn, i);
            InsertsFrom(respond, source, p, hist, drawn, i)
              == if b.status.Failed? then b
                 else Prepend(b.calls, InsertsFrom(respond, source, p, hist + b.calls, b.drawn, b.next))
  {
  }

  /** One pass of the inner loop, as ExecRows describes it. */
  lemma ExecRowsStep(respond: (seq<Call>, Call) -> bool, source: nat -> nat, p: Params,
                     hist: seq<Call>, drawn: nat, i: int, end: int)
    requires i < end && SizesOk(p)
    ensures var c := RowCall(source, p, drawn, i);
            ExecRows(respond, source, p, hist, drawn, i, end)
              == if respond(hist, c) then Prepend([c], ExecRows(respond, source, p, hist + [c], RowDrawn(source, p, drawn), i + 1, end))
                 else Progress([c, CloseStmt, Rollback], RowDrawn(source, p, drawn), i, Failed(c))
  {
  }

  // ---------------------------------------------------------------------------
  // What the specification functions promise.
  // ---------------------------------------------------------------------------

  /** The keys of the Exec calls of `t`, in order. */
  function Keys(t: seq<Call>): seq<int>
  {
    if t == [] then [] else (if t[0].Exec? then [t[0].key] else []) + Keys(t[1..])
  }

  /** The keys i, i+1, ..., m-1. */
  function Range(i: int, m: int): (r: seq<int>)
    requires i <= m
    ensures |r| == m - i
  {
    seq(m - i, k requires 0 <= k < m - i => i + k)
  }

  /** `m` is a key at which a transaction of a run starting at key `i` begins, or the end of the run. */
  predicate Boundary(p: Params, i: int, m: int)
    requires p.commitEvery > 0
  {
    i <= m <= p.n && (m == p.n || (m - i) % p.commitEvery == 0)
  }

  /** The number of transactions a complete run commits: the ceiling of n / commitEvery. */
  function Transactions(p: Params): (k: int)
    requires Advances(p)
  {
    if p.n <= 0 then 0 else Ceil(p.n, p.commitEvery)
  }

  /** The ceiling of x / c. */
  function Ceil(x: int, c: int): int
    requires c > 0
  {
    (x + c - 1) / c
  }

  /** The inner loop makes Execs for consecutive keys with good values; it stops at `end`, or at the first
      Exec that fails, which is then followed by the statement Close and the Rollback. */
  lemma {:induction false} ExecRowsShape(respond: (seq<Call>, Call) -> bool, source: nat -> nat, p: Params,
                                         hist: seq<Call>, drawn: nat, i: int, end: int)
    requires i <= end
    requires i < end ==> SizesOk(p)
    decreases end - i
    ensures var r := ExecRows(respond, source, p, hist, drawn, i, end);
            && GoodValues(p, r.calls)
            && (r.status.Ok? ==> Erase(r.calls) == ExecSkel(i, end))
            && (r.status.Failed? ==>
                  && r.status.call.Exec? && r.status.call.key == r.next && r.next < end
                  && Erase(r.calls) == ExecSkel(i, r.next) + [Exec(r.next, ""), CloseStmt, Rollback])
            && (AlwaysOk(respond) ==> r.status.Ok?)
  {
    if i < end {
      var c := RowCall(source, p, drawn, i);
      if respond(hist, c) {
        var rest := ExecRows(respond, source, p, hist + [c], RowDrawn(source, p, drawn), i + 1, end);
        ExecRowsShape(respond, source, p, hist + [c], RowDrawn(source, p, drawn), i + 1, end);
        EraseAppend([c], rest.calls);
        assert Erase([c]) == [Exec(i, "")];
        GoodValuesAppend(p, [c], rest.calls);
        if rest.status.Failed? {
          SeqAssoc([Exec(i, "")], ExecSkel(i + 1, rest.next), [Exec(rest.next, ""), CloseStmt, Rollback]);
        }
      } else {
        assert Erase([c, CloseStmt, Rollback]) == [Exec(i, ""), CloseStmt, Rollback];
      }
    }
  }

  /** One transaction: committed with the keys i..BatchEnd-1, or ended by a failure as FailedBatch describes.
      When commitEvery <= 0 a committed transaction holds no row and the run does not advance. */
  lemma BatchShape(respond: (seq<Call>, Call) -> bool, source: nat -> nat, p: Params,
                   hist: seq<Call>, drawn: nat, i: int)
    requires ValidSizes(p) && 0 <= i < p.n
    ensures var r := Batch(respond, source, p, hist, drawn, i);
            && GoodValues(p, r.calls)
            && (r.status.Ok? ==> Erase(r.calls) == BatchSkel(i, BatchEnd(p, i)))
            && (r.status.Failed? ==> FailsAt(p, i, r.status.call) && Erase(r.calls) == FailedBatch(p, i, r.status.call))
            && (p.commitEvery <= 0 ==> r.next == i && (r.status.Ok? ==> r.calls == [Begin, Prepare, CloseStmt, Commit]))
            && (AlwaysOk(respond) ==> r.status.Ok?)
  {
    var end := BatchEnd(p, i);
    if respond(hist, Begin) && respond(hist + [Begin], Prepare) {
      var rows := ExecRows(respond, source, p, hist + [Begin, Prepare], drawn, i, end);
      ExecRowsShape(respond, source, p, hist + [Begin, Prepare], drawn, i, end);
      EraseAppend([Begin, Prepare], rows.calls);
      assert Erase([Begin, Prepare]) == [Begin, Prepare];
      GoodValuesAppend(p, [Begin, Prepare], rows.calls);
      if rows.status.Failed? {
        SeqAssoc([Begin, Prepare], ExecSkel(i, rows.next), [Exec(rows.next, ""), CloseStmt, Rollback]);
      } else {
        EraseAppend([Begin, Prepare] + rows.calls, [CloseStmt, Commit]);
        assert Erase([CloseStmt, Commit]) == [CloseStmt, Commit];
        GoodValuesAppend(p, [Begin, Prepare] + rows.calls, [CloseStmt, Commit]);
      }
    } else if respond(hist, Begin) {
      assert Erase([Begin, Prepare, Rollback]) == [Begin, Prepare, Rollback];
    } else {
      assert Erase([Begin]) == [Begin];
    }
  }

  /** The outer loop from key `i`: a complete run is the committed transactions of Skeleton; a failed run
      is committed transactions up to a transaction boundary m, then the transaction that failed. */
  lemma {:induction false} InsertsShape(respond: (seq<Call>, Call) -> bool, source: nat -> nat, p: Params,
                                        hist: seq<Call>, drawn: nat, i: int)
    requires ValidSizes(p) && Advances(p) && 0 <= i
    decreases p.n - i
    ensures var r := InsertsFrom(respond, source, p, hist, drawn, i);
            && GoodValues(p, r.calls)
            && (r.status.Ok? ==> Erase(r.calls) == if i < p.n then Skeleton(p, i, p.n) else [])
            && (r.status.Failed? ==> exists m :: i <= m < p.n && (m - i) % p.commitEvery == 0 && FailsAt(p, m, r.status.call)
                                             && Erase(r.calls) == Skeleton(p, i, m) + FailedBatch(p, m, r.status.call))
            && (AlwaysOk(respond) ==> r.status.Ok?)
  {
    if i < p.n {
      var b := Batch(respond, source, p, hist, drawn, i);
      BatchShape(respond, source, p, hist, drawn, i);
      var e := BatchEnd(p, i);
      if b.status.Failed? {
        assert (i - i) % p.commitEvery == 0;
        assert Erase(b.calls) == Skeleton(p, i, i) + FailedBatch(p, i, b.status.call);
      } else {
        var rest := InsertsFrom(respond, source, p, hist + b.calls, b.drawn, b.next);
        InsertsShape(respond, source, p, hist + b.calls, b.drawn, b.next);
        EraseAppend(b.calls, rest.calls);
        GoodValuesAppend(p, b.calls, rest.calls);
        if rest.status.Failed? {
          var m :| e <= m < p.n && (m - e) % p.commitEvery == 0 && FailsAt(p, m, rest.status.call)
                   && Erase(rest.calls) == Skeleton(p, e, m) + FailedBatch(p, m, rest.status.call);
          assert e == i + p.commitEvery;
          ModStep(m - e, p.commitEvery);
          SeqAssoc(BatchSkel(i, e), Skeleton(p, e, m), FailedBatch(p, m, rest.status.call));
          assert Erase(b.calls + rest.calls) == Skeleton(p, i, m) + FailedBatch(p, m, rest.status.call);
        }
      }
    }
  }

  /** A complete run: the Exec keys are exactly 0..n-1 in order, there are ceil(n / commitEvery) Begins and
      as many Commits, and nothing is rolled back; with n <= 0 no call is made at all. */
  lemma CommittedRun(respond: (seq<Call>, Call) -> bool, source: nat -> nat, p: Params, hist: seq<Call>, drawn: nat)
    requires ValidSizes(p) && Advances(p)
    ensures var r := InsertsFrom(respond, source, p, hist, drawn, 0);
            r.status.Ok? ==>
              if p.n <= 0 then r.calls == []
              else && Keys(r.calls) == Range(0, p.n)
                   && multiset(r.calls)[Begin] == Transactions(p)
                   && multiset(r.calls)[Commit] == Transactions(p)
                   && Rollback !in r.calls
  {
    var r := InsertsFrom(respond, source, p, hist, drawn, 0);
    InsertsShape(respond, source, p, hist, drawn, 0);
    if r.status.Ok? && p.n > 0 {
      CompleteRun(p, r.calls);
    }
  }

  lemma CompleteRun(p: Params, t: seq<Call>)
    requires p.n > 0 && p.commitEvery > 0 && Erase(t) == Skeleton(p, 0, p.n)
    ensures Keys(t) == Range(0, p.n)
    ensures multiset(t)[Begin] == Transactions(p) && multiset(t)[Commit] == Transactions(p)
    ensures Rollback !in t
  {
    assert Boundary(p, 0, p.n);
    CommittedPrefix(p, p.n, t);
    BatchesCeil(p, 0, p.n);
    assert p.n - 0 == p.n;
  }

  /** Calls whose erasure is the committed transactions from key 0 up to a boundary m: keys 0..m-1 in
      order, one Begin and one Commit per transaction, no Rollback. */
  lemma CommittedPrefix(p: Params, m: int, t: seq<Call>)
    requires p.commitEvery > 0 && Boundary(p, 0, m) && Erase(t) == Skeleton(p, 0, m)
    ensures Keys(t) == Range(0, m)
    ensures multiset(t)[Begin] == Batches(p, 0, m) && multiset(t)[Commit] == Batches(p, 0, m)
    ensures Rollback !in t
  {
    SkeletonKeys(p, 0, m);
    SkeletonCounts(p, 0, m);
    KeysErase(t);
    EraseCount(t, Begin);
    EraseCount(t, Commit);
    EraseCount(t, Rollback);
  }

  /** The calls `t` of a run that failed with `f` are `done`, the m / commitEvery committed transactions
      holding keys 0..m-1, followed by `failed`, the transaction from key m that `f` ended. */
  predicate FailedAfter(p: Params, t: seq<Call>, f: Call, m: int, done: seq<Call>, failed: seq<Call>)
    requires p.commitEvery > 0
  {
    && 0 <= m < p.n && m % p.commitEvery == 0
    && t == done + failed
    && Keys(done) == Range(0, m)
    && multiset(done)[Begin] == m / p.commitEvery
    && multiset(done)[Commit] == m / p.commitEvery
    && Rollback !in done
    && Erase(failed) == FailedBatch(p, m, f)
  }

  /** A failed run: the transactions before the failing one, holding keys 0..m-1, were all committed; the
      failing transaction is rolled back exactly when Prepare or an Exec failed, and a failed Commit is not
      rolled back. */
  lemma AbortedRun(respond: (seq<Call>, Call) -> bool, source: nat -> nat, p: Params, hist: seq<Call>, drawn: nat)
    requires ValidSizes(p) && Advances(p)
    ensures var r := InsertsFrom(respond, source, p, hist, drawn, 0);
            r.status.Failed? ==>
              && p.n > 0 && p.commitEvery > 0
              && (exists m, done, failed :: FailedAfter(p, r.calls, r.status.call, m, done, failed))
              && (Rollback in r.calls <==> r.status.call == Prepare || r.status.call.Exec?)
              && multiset(r.calls)[Rollback] <= 1
  {
    var r := InsertsFrom(respond, source, p, hist, drawn, 0);
    InsertsShape(respond, source, p, hist, drawn, 0);
    if r.status.Failed? {
      var f := r.status.call;
      var m :| 0 <= m < p.n && (m - 0) % p.commitEvery == 0 && FailsAt(p, m, f)
               && Erase(r.calls) == Skeleton(p, 0, m) + FailedBatch(p, m, f);
      var done, failed := FailedRun(p, m, f, r.calls);
    }
  }

  lemma FailedRun(p: Params, m: int, f: Call, t: seq<Call>) returns (done: seq<Call>, failed: seq<Call>)
    requires p.commitEvery > 0 && 0 <= m < p.n && m % p.commitEvery == 0 && FailsAt(p, m, f)
    requires Erase(t) == Skeleton(p, 0, m) + FailedBatch(p, m, f)
    ensures FailedAfter(p, t, f, m, done, failed)
    ensures Rollback in t <==> f == Prepare || f.Exec?
    ensures multiset(t)[Rollback] <= 1
  {
    done, failed := SplitFailedRun(p, m, f, t);
    CommittedPrefix(p, m, done);
    BatchesCeil(p, 0, m);
    CeilExact(m, p.commitEvery);
    assert m - 0 == m;
    FailedBatchRollbacks(p, m, f);
    EraseCount(failed, Rollback);
    assert multiset(t)[Rollback] == multiset(done)[Rollback] + multiset(failed)[Rollback];
  }

  /** Cuts the calls of a failed run where the failing transaction begins. */
  lemma SplitFailedRun(p: Params, m: int, f: Call, t: seq<Call>) returns (done: seq<Call>, failed: seq<Call>)
    requires p.commitEvery > 0 && 0 <= m < p.n && m % p.commitEvery == 0
    requires Erase(t) == Skeleton(p, 0, m) + FailedBatch(p, m, f)
    ensures t == done + failed
    ensures Boundary(p, 0, m)
    ensures Erase(done) == Skeleton(p, 0, m) && Erase(failed) == FailedBatch(p, m, f)
  {
    var k := |Skeleton(p, 0, m)|;
    done, failed := t[..k], t[k..];
    assert t == done + failed;
    EraseAppend(done, failed);
    assert Erase(done) == Erase(t)[..k];
    assert Erase(failed) == Erase(t)[k..];
  }

  // ---------------------------------------------------------------------------
  // Helpers for the properties above.
  // ---------------------------------------------------------------------------

  lemma GoodValuesAppend(p: Params, a: seq<Call>, b: seq<Call>)
    requires GoodValues(p, a) && GoodValues(p, b)
    ensures GoodValues(p, a + b)
  {
    forall k | 0 <= k < |a + b| && (a + b)[k].Exec?
      ensures GoodValue(p, (a + b)[k].value)
    {
      if k >= |a| {
        assert (a + b)[k] == b[k - |a|];
      }
    }
  }

  lemma {:induction false} KeysAppend(a: seq<Call>, b: seq<Call>)
    ensures Keys(a + b) == Keys(a) + Keys(b)
  {
    if a == [] {
      assert a + b == b;
    } else {
      assert (a + b)[0] == a[0];
      assert (a + b)[1..] == a[1..] + b;
      KeysAppend(a[1..], b);
    }
  }

  lemma {:induction false} KeysErase(t: seq<Call>)
    ensures Keys(Erase(t)) == Keys(t)
  {
    if t != [] {
      assert Erase(t)[1..] == Erase(t[1..]);
      KeysErase(t[1..]);
    }
  }

  lemma {:induction false} EraseCount(t: seq<Call>, x: Call)
    requires !x.Exec?
    ensures multiset(Erase(t))[x] == multiset(t)[x]
  {
    if t != [] {
      assert t == [t[0]] + t[1..];
      assert Erase(t) == [EraseCall(t[0])] + Erase(t[1..]);
      EraseCount(t[1..], x);
    }
  }

  lemma {:induction false} ExecSkelFacts(i: int, m: int)
    requires i <= m
    decreases m - i
    ensures Keys(ExecSkel(i, m)) == Range(i, m)
    ensures forall x :: x in ExecSkel(i, m) ==> x.Exec?
  {
    if i < m {
      ExecSkelFacts(i + 1, m);
      KeysAppend([Exec(i, "")], ExecSkel(i + 1, m));
      assert Range(i, m) == [i] + Range(i + 1, m);
    }
  }

  /** The key at which the next transaction starts is again a boundary, one transaction further on. */
  lemma BoundaryStep(p: Params, i: int, m: int)
    requires p.commitEvery > 0 && Boundary(p, i, m) && i < m
    ensures Boundary(p, BatchEnd(p, i), m)
    ensures Ceil(m - i, p.commitEvery) == 1 + Ceil(m - BatchEnd(p, i), p.commitEvery)
  {
    var c := p.commitEvery;
    var e := BatchEnd(p, i);
    if m < p.n && m - i < c {
      ModUnique(m - i, c, 0, m - i);
    }
    if i + c <= p.n {
      assert e == i + c;
      if m < p.n {
        ModStep(m - e, c);
      }
      ModUnique(m - i + c - 1, c, (m - e + c - 1) / c + 1, (m - e + c - 1) % c);
    } else {
      assert e == p.n == m;
      ModUnique(m - i + c - 1, c, 1, m - i - 1);
      ModUnique(c - 1, c, 0, c - 1);
    }
  }

  lemma {:induction false} SkeletonKeys(p: Params, i: int, m: int)
    requires p.commitEvery > 0 && Boundary(p, i, m)
    decreases m - i
    ensures Keys(Skeleton(p, i, m)) == Range(i, m)
  {
    if i < m {
      var e := BatchEnd(p, i);
      BoundaryStep(p, i, m);
      SkeletonKeys(p, e, m);
      ExecSkelFacts(i, e);
      KeysAppend([Begin, Prepare], ExecSkel(i, e));
      KeysAppend([Begin, Prepare] + ExecSkel(i, e), [CloseStmt, Commit]);
      KeysAppend(BatchSkel(i, e), Skeleton(p, e, m));
      assert Range(i, m) == Range(i, e) + Range(e, m);
    }
  }

  /** The number of transactions from key `i` up to key `m`. */
  function Batches(p: Params, i: int, m: int): nat
    requires p.commitEvery > 0 && m <= p.n
    decreases m - i
  {
    if i >= m then 0 else 1 + Batches(p, BatchEnd(p, i), m)
  }

  lemma {:induction false} SkeletonCounts(p: Params, i: int, m: int)
    requires p.commitEvery > 0 && m <= p.n
    decreases m - i
    ensures multiset(Skeleton(p, i, m))[Begin] == Batches(p, i, m)
    ensures multiset(Skeleton(p, i, m))[Commit] == Batches(p, i, m)
    ensures Rollback !in Skeleton(p, i, m)
  {
    if i < m {
      var e := BatchEnd(p, i);
      SkeletonCounts(p, e, m);
      BatchSkelCounts(i, e);
      var s := Skeleton(p, i, m);
      assert multiset(s) == multiset(BatchSkel(i, e)) + multiset(Skeleton(p, e, m));
    }
  }

  lemma BatchSkelCounts(i: int, e: int)
    requires i <= e
    ensures multiset(BatchSkel(i, e))[Begin] == 1 && multiset(BatchSkel(i, e))[Commit] == 1
    ensures Rollback !in BatchSkel(i, e)
  {
    ExecSkelFacts(i, e);
    var x := ExecSkel(i, e);
    assert Begin !in x && Commit !in x && Rollback !in x;
    assert multiset(BatchSkel(i, e)) == multiset([Begin, Prepare]) + multiset(x) + multiset([CloseStmt, Commit]);
  }

  /** Between boundaries, the number of transactions is the ceiling of (m - i) / commitEvery. */
  lemma {:induction false} BatchesCeil(p: Params, i: int, m: int)
    requires p.commitEvery > 0 && Boundary(p, i, m)
    decreases m - i
    ensures Batches(p, i, m) == Ceil(m - i, p.commitEvery)
  {
    if i < m {
      BoundaryStep(p, i, m);
      BatchesCeil(p, BatchEnd(p, i), m);
    } else {
      ModUnique(p.commitEvery - 1, p.commitEvery, 0, p.commitEvery - 1);
    }
  }

  /** At a boundary m, which is a multiple of c, the ceiling of m / c is m / c. */
  lemma CeilExact(m: int, c: int)
    requires c > 0 && m >= 0 && m % c == 0
    ensures Ceil(m, c) == m / c
  {
    ModUnique(m + c - 1, c, m / c, c - 1);
  }

  lemma FailedBatchRollbacks(p: Params, i: int, f: Call)
    requires 0 <= i < p.n && FailsAt(p, i, f)
    ensures Rollback in FailedBatch(p, i, f) <==> f == Prepare || f.Exec?
    ensures multiset(FailedBatch(p, i, f))[Rollback] <= 1
  {
    if f.Exec? {
      ExecSkelFacts(i, f.key);
      var x := ExecSkel(i, f.key);
      assert Rollback !in x;
      assert FailedBatch(p, i, f) == [Begin, Prepare] + x + [Exec(f.key, ""), CloseStmt, Rollback];
      assert multiset(FailedBatch(p, i, f)) == multiset([Begin, Prepare]) + multiset(x) + multiset([Exec(f.key, ""), CloseStmt, Rollback]);
    } else if f == Commit {
      ExecSkelFacts(i, BatchEnd(p, i));
      var x := ExecSkel(i, BatchEnd(p, i));
      assert Rollback !in x;
      assert multiset(FailedBatch(p, i, f)) == multiset([Begin, Prepare]) + multiset(x) + multiset([CloseStmt, Commit]);
    }
  }

  lemma ModStep(x: int, c: int)
    requires c > 0
    ensures (x + c) % c == x % c
  {
    assert x == (x / c) * c + x % c;
    assert x + c == (x / c + 1) * c + x % c;
    ModUnique(x + c, c, x / c + 1, x % c);
  }

  /** Euclidean division is determined by quotient and remainder. */
  lemma ModUnique(y: int, c: int, q: int, r: int)
    requires c > 0 && 0 <= r < c && y == q * c + r
    ensures y % c == r && y / c == q
  {
    var q0, r0 := y / c, y % c;
    assert q0 * c + r0 == q * c + r;
    assert (q0 - q) * c == r - r0;
    if q0 - q >= 1 {
      MulMono(q0 - q, c);
    } else if q0 - q <= -1 {
      MulMono(q - q0, c);
    }
  }

  lemma MulMono(a: int, c: int)
    requires a >= 1 && c > 0
    ensures a * c >= c
  {
  }
}
