# sqlite-repro harness, modelled in Dafny

The harness (`main.go`) creates SQLite databases, fills each with a batched write
workload, and reads them back with several read-only connections. It then
sums the engine's memory statistics across every connection and finally closes
all handles. This project models the sequential logic of that harness and proves
what it promises:

- **Write workload** (`inserts`, module `WriteWorkload`). Keys `0..n-1` are split
  into transactions of at most `commitEvery` rows. Each transaction is
  Begin, Prepare, one Exec per row, statement Close, Commit.
  - Prepare and Exec failures roll the transaction back.
  - A Commit failure is returned as it is.
  - The first failure ends the run.
- **Random strings** (`randomString`, module `RandomText`). A buffer of `l`
  characters is filled from the 62-character alphanumeric alphabet.
- **Read workload** (`selects`, module `ReadWorkload`). The harness queries,
  drains the cursor, and returns the first Scan error. The cursor is closed
  on every path after a successful query.
- **Status aggregation** (the loops of `printSqliteMemoryUsageForAllDbs`, module
  `StatusReport`). For every connection and each of five opcodes, the current
  value is added into a per-opcode 64-bit total. The first non-OK return code
  aborts.
- **Close bundle** (the handle list and the closure returned by
  `createAndTestDb`, module `Teardown`). Readers are opened in order. The
  closure closes them in that order, then the writer, and stops at the first
  failure.

The engine is an oracle, and so is the random source (module `Engine`):
- A handle logs every call made on it (`Handle.log`).
- Whether a call succeeds is decided by a function of that history
  (`Handle.respond`), so any deterministic engine can be represented.
- `math/rand` is a stream of naturals plus a draw counter. `rand.Intn(n)`
  takes the next value modulo `n`.
- Query answers and `sqlite3_db_status` replies are parameters.

The write workload is specified by three functions, one per loop level:
`ExecRows` for the inner loop, `Batch` for one transaction and `InsertsFrom`
for the outer loop. The method `Inserts` is proved to make exactly the calls
they describe, to consume exactly the random draws they describe, and to
return exactly their result. The source's promises are then proved about the
functions, against reference shapes in which the random string values are
erased (`Skeleton`, `BatchSkel`, `FailedBatch`).

## Model

| member | source | states |
|---|---|---|
| Engine.Handle.Invoke | main.go:222-241 | each engine call (Begin, Prepare, Exec, statement Close, Commit, Rollback, Close) is appended to the handle's log, and its success is the engine's verdict on the log before it |
| Engine.Rand.Intn | main.go:270 | `rand.Intn(n)`: needs `n > 0` (Go panics otherwise); the result is in `[0, n)` and one value of the stream is consumed |
| RandomText.AlphabetIsAlnum | main.go:267 | the alphabet has 62 characters, every one of them an ASCII letter or digit, and every ASCII letter or digit occurs in it |
| RandomText.RandomChars | main.go:266-273 | the string built from the stream has exactly `l` characters, all alphanumeric |
| RandomText.RandomString | main.go:266-273 | fills a fresh buffer in place with one draw per byte: the result is `RandomChars` of the stream at entry, and exactly `l` draws are consumed |
| WriteWorkload.BatchEnd | main.go:232 | a transaction starting at key `i < n` ends at a key no greater than `n`; it takes `commitEvery` rows, or fewer only when it is the last; with `commitEvery <= 0` it takes none |
| WriteWorkload.ExecRows | main.go:232-239 | the inner loop stops at a key between its start and the transaction's end, and reaches the end when no Exec failed |
| WriteWorkload.Batch | main.go:222-243 | one transaction advances the key by at most the transaction's size, and by exactly that size when it commits |
| WriteWorkload.InsertsFrom | main.go:221-245 | a run that succeeds has advanced the key to `n` |
| WriteWorkload.Inserts | main.go:220-246 | the loop makes exactly the calls of `InsertsFrom` on the handle, draws exactly its random values and returns its status |
| WriteWorkload.Transaction | main.go:222-243 | one pass of the outer loop makes exactly the calls of `Batch`; a failed Prepare is followed by Rollback, a failed Commit by nothing |
| WriteWorkload.InsertRows | main.go:232-239 | the inner loop makes exactly the calls of `ExecRows` and stops at the first failing Exec |
| WriteWorkload.InsertRow | main.go:233-237 | the Exec carries key `i` and a string whose length is `rand.Intn(max-min)+min`; a failing Exec is followed by statement Close then Rollback |
| WriteWorkload.ExecRowsShape | main.go:232-239 | the Execs have consecutive keys and values with length in `[min, max)` that are alphanumeric; a failed Exec is the last Exec and is followed by statement Close and Rollback; with an engine that never fails, no Exec fails |
| WriteWorkload.BatchShape | main.go:222-243 | a transaction is Begin, Prepare, its Execs, statement Close, Commit; a Begin failure makes no further call, Prepare and Exec failures roll back, a Commit failure does not; with `commitEvery <= 0` a committed transaction holds no row and the key does not advance |
| WriteWorkload.InsertsShape | main.go:221-244 | a complete run is the committed transactions of `Skeleton`; a failed run is the committed transactions up to a transaction boundary `m` (a multiple of `commitEvery` after the start), then the failing transaction and no further call; all values are well formed; a never-failing engine gives success |
| WriteWorkload.CommittedRun | main.go:221-245 | when every call succeeds, the Exec keys are exactly `0, 1, ..., n-1` in order, there are `ceil(n/commitEvery)` Begins and as many Commits, and no Rollback; with `n <= 0` no call is made |
| WriteWorkload.AbortedRun | main.go:226-243 | on failure the earlier transactions, holding keys `0..m-1`, are committed (`m/commitEvery` Begins and Commits, no Rollback); the failing transaction is rolled back exactly when Prepare or an Exec failed, and at most once |
| ReadWorkload.Rows.Next | main.go:256 | moves onto the next row while the cursor is open and has rows; otherwise reports false, records that the iteration has ended, and leaves the position as it is |
| ReadWorkload.Rows.Scan | main.go:259 | the scan of the current row succeeds exactly when that row scans |
| ReadWorkload.Rows.Err | main.go:256-263 | reports an error exactly when `Next` has returned false and iterating broke |
| ReadWorkload.Rows.Close | main.go:254 | the cursor is closed; its position and whether the iteration ended are kept |
| ReadWorkload.Drain | main.go:249-264 | as written: a Query error consumes no row, and a cursor never gives a Query error; otherwise success holds exactly when every row scans and then all rows were consumed; a Scan error names the first row that fails, after which no further row is read; an iteration error is never reported |
| ReadWorkload.DrainChecked | main.go:249-264 | as intended: agrees with `Drain` on cursors that end normally; reports the iteration error exactly when the cursor broke after rows that all scanned |
| ReadWorkload.DrainRows | main.go:256-262 | the `for rows.Next()` loop consumes and returns exactly what `Drain` describes, and `Next` has returned false exactly when it returns success |
| ReadWorkload.Selects | main.go:249-264 | returns `Drain`'s status; the cursor exists exactly when the query succeeded, is the cursor of the query's own rows, and is then closed after the rows `Drain` consumed |
| ReadWorkload.SelectsChecked | main.go:249-264 | the same with `rows.Err()` consulted after the loop: returns `DrainChecked`'s status and closes the query's own cursor |
| ReadWorkload.BrokenCursorUnreported | main.go:256-263 | a cursor that breaks after rows that all scanned is reported by `selects` exactly like one that was exhausted, while the checked version reports the error |
| StatusReport.Add64 | main.go:194 | the 64-bit addition is exact whenever the mathematical sum fits in `int64` |
| StatusReport.DbStatus | main.go:185-188 | the status call returns its code and, on success, writes the current and highwater values into the stats block |
| StatusReport.Aggregate | main.go:176-196 | succeeds exactly when every probe returns SQLITE_OK; the map then has exactly the five opcodes as keys when `conns` is non-empty and none otherwise, and each value is the total over all connections; otherwise the abort names the first failing probe in connection-then-opcode order, with its code |
| StatusReport.ProbeConnection | main.go:184-195 | the opcode loop for one connection adds that connection's current value into every opcode's total, or stops at the first failing opcode |
| StatusReport.TotalIsSum | main.go:194 | with at most 2^32 connections no total wraps: each total equals the exact sum of the current values |
| Teardown.OpenReaders | main.go:126-134 | opens `parallelSelects` distinct fresh read-only handles in order, or stops at the first open that fails |
| Teardown.Bundle.Close | main.go:146-155 | closes the readers in open order and then the writer; returns the first failing handle, which is the last handle to receive Close; the handles after it stay open |
| Teardown.OpenBundle | main.go:126-155 | when every open succeeds, the bundle holds `parallelSelects` readers plus the writer, each handle exactly once |

## Left out

- Goroutines, WaitGroups and the mutexes around `conns` and `closeFuncs`. The readers' `selects` run concurrently in the source; here each read is modelled on its own, and `OpenBundle` does not run them.
- Reflection into the driver to recover the native handle; `unsafe`, `Xmalloc`/`Xfree`; the raw FFI status call. They are foreign calls; the status call is an oracle.
- `preallocateCache`, the pprof server, expvar printing, signal handling, the temporary directory and `main`'s argument parsing. They are I/O plumbing and engine configuration.
- Printing, including the opcode-name switch. It is presentation only.
- SQLite semantics: schema setup, what a query returns for `i < maxValue`, what Scan converts. Each engine call succeeds or fails according to the oracle.
- The algorithm of `math/rand`. A draw is the next value of an arbitrary stream, reduced modulo `n`.
- WriteWorkload.Inserts: requires that `commitEvery > 0` whenever `n > 0`. Otherwise each pass of the source's outer loop commits an empty transaction without advancing `i`: it returns the error of the first Begin, Prepare or Commit that fails, and never ends while they all succeed. The model does not cover that run; `BatchShape` proves that one such pass makes no progress.
- WriteWorkload.Inserts: requires `0 <= minStringSize < maxStringSize` whenever `n > 0` and `commitEvery > 0`. The source panics instead: `rand.Intn` panics when `maxStringSize <= minStringSize` (main.go:233), and `make` panics on a negative length (main.go:268). The model does not model these panics. A negative `minStringSize` panics in the source only when a negative length is actually drawn, but the model excludes every negative `minStringSize`.
- WriteWorkload.Inserts: the return values of the Rollback and statement Close calls are ignored, as in the source.
- WriteWorkload.Inserts: a failed Commit is returned without a Rollback, as the code does (`BatchShape`, `AbortedRun`).
- ReadWorkload.Rows.Next: database/sql closes the rows itself when `Next` returns false. The model keeps them open until the deferred Close, which `selects` reaches on every path after a successful query, so the result is the same.
- ReadWorkload.Selects: the `maxValue` argument only parameterises the SQL and is not modelled. The Scan destination variables are not modelled either.
- StatusReport.Aggregate: the panic's message carries only the return code. The model also reports which connection and opcode failed. The highwater values are read but unused, as in the source.
- StatusReport.TotalIsSum: for more than 2^32 connections the totals wrap as Go's `int64` does (`Add64`); no exact-sum claim is made there.
- Teardown.OpenReaders: when an open fails, the source returns without closing the readers already opened or the writer. The model only reports the failing index.
- Teardown.Bundle.Close: the closure also assigns each Close error to `createAndTestDb`'s captured `err` variable. Nothing reads that variable afterwards, so this is not modelled.

## Findings

| source | as written | input that shows it | evidently intended | confidence | as-written member | corrected member |
|---|---|---|---|---|---|---|
| main.go:256-263 | the loop ends when `rows.Next()` returns false and `selects` returns nil without consulting `rows.Err()` | a cursor that breaks (for example an I/O error) after rows that all scanned: `Cursor([true], Broken)` | check `rows.Err()` after the loop and return it, so a read cut short is not reported as a full drain | medium, not executed | ReadWorkload.BrokenCursorUnreported | ReadWorkload.SelectsChecked |
