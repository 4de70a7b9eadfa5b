# VirtualPostgreSQL: a verified model of its core

VirtualPostgreSQL is a SQLite virtual-table extension over PostgreSQL, written in C. This project
models the parts of it where a mistake would be silent (a wrong answer, a lost connection, a
statement that touches another row) and proves what those parts are for. `dafny verify
dfyconfig.toml` checks everything; every file is self-contained Dafny 4.11.

Foreign calls (libpq, the clock, sockets, callbacks, the allocator) are arbitrary: a
nondeterministic choice at each call, or a function parameter that ranges over all behaviours.
What is proved therefore holds for every answer the outside can give.

## The parts

| files | what they model |
|---|---|
| `Plans`, `Planner`, `PlanBookkeeping`, `ProjectionLimit` | the pushdown compiler: which constraints, order terms and windows SQLite may leave to the server |
| `RowSequences`, `Pushdown`, `PushdownConverse` | what a plan means: remote filter, sort and window, then local recheck, sort and window, against direct evaluation |
| `WireLayout`, `PlanCodec`, `PlanCodecMethods` | the plan's wire form and its hexadecimal text |
| `Counting`, `PoolState`, `PoolQueue`, `ConnectionPool`, `PoolRun` | the bounded connection pool with tickets and leases, under every interleaving |
| `LibpqStatement`, `ClientStatement` | the statement phase machine over libpq and the client port that drives it |
| `ConnectionHealth`, `LibpqConnection`, `ClientConnection` | connecting, the script run on connect, reset, ping and at transaction boundaries, and the client port's connection above them |
| `SocketWait` | deadlines and the bounded socket wait |
| `Splitting`, `PathSpec`, `PathNormalizer`, `IdentityText`, `ConnectionIdentity` | normal forms and the canonical bytes of a connection's identity |
| `Concatenation`, `Streams`, `MetadataWire`, `MetadataCodec`, `MetadataSnapshot` | the stored metadata snapshot |
| `SqlText`, `SqlReader`, `DmlSpec`, `DmlBuilder`, `DmlMeaning` | the INSERT, UPDATE and DELETE statements of a write, a reader for such text, and what the text means |
| `QueryCache` | the single-flight snapshot cache |
| `CancelRegistry` | the linked list of cancel tokens |
| `Utf8` | the two UTF-8 checks |
| `Options`, `Ascii` | shared helpers |

## Where the code does less than its description suggests

Each of these is a proved statement, with a concrete input and the exact condition.

- **Pushdown.** A constraint that is unusable or names no column is skipped without raising the
  recheck flag (`src/vps_planner.c:160-164`), and an unusable OFFSET does not stop a usable LIMIT
  from being consumed. The answer is preserved for all tables, bindings and agreeing engines
  exactly for the requests `SafeRequest` describes, which a caller can test beforehand
  (`PushdownPreservesAnswer`, `UnsafeRequestChangesAnswer`); `UnsafeRequestsExist` and
  `AnswerCanChange` give the requests.
- **UNIQUE.** Key equalities are counted, not collected per column
  (`src/vps_planner.c:190-194`). Where the flag is set, every key column is pinned if and only if
  no key column has two equalities (`UniquePinsEveryKeyIffNoDoubling`, `UniqueCanMissAKey`).
- **Wide tables.** Adding a column to a full projection fails even when the column is already in
  it (`src/vps_planner.c:91-94`). A valid request is refused with LIMIT_EXCEEDED if and only if the
  table has 1024 columns, something is pushed or sorted, and every column is used or added before
  the last addition (`LimitExceededIff`); `WideRequestRefused` reads all columns and tests one.
- **Paths.** A drive without a root gains a slash (`src/vps_identity.c:271-280,310`). Normalising
  again changes nothing if and only if `Stable` holds: always under a root; for a bare drive when
  its pieces do not climb out; for a relative path unless the piece it will begin with reads as a
  drive in need of change. `Stable` counts depth over the pieces between separators and resolves
  nothing (`LeadOf`, `IdempotentIffStable`, `NotAlwaysIdempotent`).
- **Snapshots.** Decoding ignores padding bytes, so an accepted string is the stored form of what
  it decodes to if and only if its padding is zero (`MetadataCodec.EncodeDecode`). Every storable
  snapshot has a second accepted form (`PaddedAccepted`).
- **Cache leases.** A cache lease is not guarded against copies as a pool lease is
  (`src/vps_query_cache.c:227-232`). Over every run, with any lease given back any number of times,
  a database is closed under a lease that is still out if and only if the cache was destroyed and
  some holder's release had succeeded twice (`QueryCache.Run`, `ClosedIffDoubled`);
  `CopiedLeaseBreaks` is such a run.
- **Failed connections.** The port's table lets a rollback start on a failed connection and a
  cancel start while connecting (`src/vps_client.c:309-326`), and a completed statement brings a
  failed connection back (`src/vps_client.c:775-777`). Over libpq none of these ever happens: of the
  starts the table allows, exactly those on a failed port, cancels, and those on a failed libpq
  connection are refused, and a failed port stays failed, whatever its statements do
  (`ConnectionPort.Start`, `ClientConnection.Run`); `RollbackRefused` is a run whatever libpq
  answers.

## Hypotheses

- Tickets and lease tokens do not wrap at 2^64 (`src/vps_connection_pool.c:85-92`): a run of the
  pool stops before they would. The create callback returns a handle it has not returned before.
- Locking and unlocking succeed. Each method of the pool, the cache and the registry is one
  stretch of code under the mutex; condition waits and unlocked callbacks are where others run.
- The local and the remote engine agree on a test where the capability flags call it exact, agree
  on order where a column is order-exact, and an IN pushed to the server lets through at least the
  rows SQLite will keep.
- Hash functions are arbitrary functions of the bytes; nothing is claimed about collisions.

## Model

| member | source | states |
|---|---|---|
| Planner.Compile | src/vps_planner.c:124-268 | the imperative compiler returns exactly the plan, or the error, that the specification gives |
| Planner.ProjectUsedColumns | src/vps_planner.c:146-155 | the first projection loop yields the used and key columns, or column 0 |
| Planner.PushFilters | src/vps_planner.c:156-200 | the first constraint loop: pushed filters, argument count, key parts, recheck flag and projection in one pass |
| Planner.PushFilter | src/vps_planner.c:175-199 | one pushed constraint takes the next argument and adds its column; a full projection fails the whole request |
| Planner.CheckOrder | src/vps_planner.c:201-210 | true exactly when every order term is on an order-exact column |
| Planner.PushOrder | src/vps_planner.c:211-226 | order terms carry NULLs-first exactly when ascending and join the projection |
| Planner.PushWindows | src/vps_planner.c:228-247 | usable LIMIT and OFFSET are pushed only without recheck, with arguments after the filters' |
| Planner.Finish | src/vps_planner.c:228-267 | windows, flags, estimates and clamped index numbers complete the specified plan |
| PlanBookkeeping.ArgumentsAreNumberedInOrder | src/vps_planner.c:195-247 | non-zero argument indexes are exactly 1..argument_count in constraint order over both loops |
| PlanBookkeeping.ProjectionCoversThePlan | src/vps_planner.c:89-226 | the projection is duplicate-free and holds every used, key, constraint and order column |
| PlanBookkeeping.EstimateIs | src/vps_planner.c:144-257 | at least one row and never more than the table has; one for a whole key; otherwise the whole part of the table's rows over the divisor |
| PlanBookkeeping.MoreConstraintsFewerRows | src/vps_planner.c:248-257 | on the same table a plan with more constraints never promises more rows |
| PlanBookkeeping.UniquePinsEveryKeyIffNoDoubling | src/vps_planner.c:190-251 | with distinct key columns and UNIQUE set, every key column is pinned if and only if no key column has two equalities |
| PlanBookkeeping.UniqueCanMissAKey | src/vps_planner.c:190-251 | a concrete request with UNIQUE set and a key column that is not pinned |
| ProjectionLimit.LimitExceededIff | src/vps_planner.c:89-226 | a request fails for its projection if and only if the table has 1024 columns, something is added, and every column is used or added before the last addition |
| ProjectionLimit.ProjectFailsIff | src/vps_planner.c:89-99 | columns added one after another fail exactly when all 1024 were there before the last one |
| ProjectionLimit.WideRequestRefused | src/vps_planner.c:89-226 | a request for all of 1024 columns that is refused because of one pushed equality, and compiles without it |
| Pushdown.RowVerdict | src/vps_planner.c:156-200 | a row is wanted exactly when the server sends it and the local recheck keeps it |
| Pushdown.FilterAndSort | src/vps_planner.c:156-227 | remote filter and sort followed by recheck and local sort give the directly filtered and stably sorted rows |
| Pushdown.OrdersCoincide | src/vps_planner.c:211-222 | the encoded order with NULLs-first on ascending terms is SQLite's order with NULL smallest |
| Pushdown.PlanWindowIs | src/vps_planner.c:228-247 | the window the server applies is the request's when consumed, else none |
| Pushdown.PushdownPreservesAnswer | src/vps_planner.c:124-268 | for every safe request, table, binding and agreeing engines the pushed answer is the direct answer, row for row |
| PushdownConverse.UnsafeRequestChangesAnswer | src/vps_planner.c:160-247 | for every unsafe compiled request some engines, table and binding get a different answer, so the condition is exact |
| PushdownConverse.SkippedFilterBreaks | src/vps_planner.c:160-164 | a skipped filter beside a consumed window changes an answer |
| PushdownConverse.LocalOffsetBreaks | src/vps_planner.c:228-247 | a consumed LIMIT beside an unusable OFFSET changes an answer |
| PushdownConverse.UnsafeRequestsExist | src/vps_planner.c:160-247 | a compiled request of each unsafe kind: a skipped filter beside a LIMIT, a LIMIT beside a local OFFSET |
| PushdownConverse.AnswerCanChange | src/vps_planner.c:160-247 | a request, engines, table and binding for which the pushed answer is not the direct one |
| RowSequences.SelectSort | src/vps_planner.c:185-222 | filtering commutes with stable sorting, which is what rechecking IN after a remote sort needs |
| PlanCodec.DecodeEncode | src/vps_planner.c:287-458 | every plan that passes the decoder's checks decodes from its encoding to itself |
| PlanCodec.EncodeDecode | src/vps_planner.c:287-458 | every accepted string re-encodes to its own lower-case form |
| PlanCodec.EncodedInjective | src/vps_planner.c:287-351 | distinct plans never share an encoding |
| PlanCodec.WireInjective | src/vps_planner.c:301-336 | distinct plans never share wire bytes |
| PlanCodec.CompiledPlansRoundTrip | src/vps_planner.c:124-458 | every compiled plan passes all decoder checks and round-trips under its own fingerprint |
| PlanCodec.HexUnhex | src/vps_planner.c:270-285 | hex text that decodes re-encodes to its lower-case form |
| PlanCodec.UnhexHex | src/vps_planner.c:270-285 | bytes survive hex and back |
| PlanCodecMethods.Encode | src/vps_planner.c:287-351 | the loops over header, projection, constraints and order terms write the specified text, or refuse an oversized plan |
| PlanCodecMethods.Decode | src/vps_planner.c:353-458 | the decoder returns the specified plan or the specified error, check by check |
| PlanCodecMethods.DecodeHex | src/vps_planner.c:367-376 | pairs of hex digits become bytes, any other character is refused |
| PlanCodecMethods.DecodeProjection | src/vps_planner.c:411-419 | accepted exactly when columns are in range and distinct |
| PlanCodecMethods.DecodeConstraints | src/vps_planner.c:420-442 | accepted exactly when flags, operator, argument index and column are in range for every constraint |
| PlanCodecMethods.DecodeOrderTerms | src/vps_planner.c:443-452 | accepted exactly when columns and flags are in range for every term |
| WireLayout.CutPut | src/vps_planner.c:301-452 | records and tables written behind counting headers are cut back apart unchanged |
| WireLayout.PutCut | src/vps_planner.c:377-452 | bytes cut by their own header are written back to the same bytes |
| ConnectionPool.Pool.DestroyAt | src/vps_connection_pool.c:130-141 | destroys the slot's connection once and counts it |
| ConnectionPool.Pool.CreateSlot | src/vps_connection_pool.c:143-169 | fills the first empty slot; a handle published by a failed create is destroyed at once |
| ConnectionPool.Pool.FirstTicket | src/vps_connection_pool.c:171-181 | the smallest active ticket |
| ConnectionPool.Pool.WaiterAdd | src/vps_connection_pool.c:183-200 | registers a new, larger ticket at the end of the queue |
| ConnectionPool.Pool.WaiterRemove | src/vps_connection_pool.c:202-211 | takes an active waiter out and keeps the count; an index that names none changes nothing |
| ConnectionPool.Pool.FindIdle | src/vps_connection_pool.c:219-236 | the first idle connection that is not due for validation or passes it; the due ones before it were destroyed, nothing else changed |
| ConnectionPool.Pool.TakeAvailable | src/vps_connection_pool.c:213-241 | reuses an idle connection before creating one, leaves leased ones alone; busy only when every slot is leased |
| ConnectionPool.Pool.FillLease | src/vps_connection_pool.c:243-255 | leases the slot under a token never used before |
| ConnectionPool.Pool.FillMinimum | src/vps_connection_pool.c:317-335 | opens the minimum; if one fails all are destroyed, each once |
| ConnectionPool.Pool.MayTake | src/vps_connection_pool.c:403-404 | a newcomer's turn only while nobody waits, a waiter's only at the head of the queue |
| ConnectionPool.Pool.AcquirePass | src/vps_connection_pool.c:378-443 | one pass of the acquire loop keeps all invariants and touches no one else's lease or place |
| ConnectionPool.Pool.AbandonWait | src/vps_connection_pool.c:434-443 | a failed wait leaves the queue |
| ConnectionPool.Pool.Release | src/vps_connection_pool.c:456-511 | succeeds for exactly the live lease of its slot, at most once per token; dirty, closed or unresettable connections are destroyed |
| ConnectionPool.Pool.Settle | src/vps_connection_pool.c:487-501 | which returns keep the connection and which destroy it, with the status each gives |
| ConnectionPool.Pool.Close | src/vps_connection_pool.c:530-547 | no idle connection is left, leased ones stay |
| ConnectionPool.Pool.TryDestroy | src/vps_connection_pool.c:549-570 | OK exactly without leases and waiters, and then every handle ever created was destroyed exactly once |
| PoolRun.Run | src/vps_connection_pool.c:257-582 | over every interleaving and every forged or copied lease: counters match slots and waiters, no handle is lost, tokens are returned at most once |
| PoolRun.LiveLeasesDiffer | src/vps_connection_pool.c:243-255 | no connection is under two live leases |
| PoolRun.PassKeepsLogged | src/vps_connection_pool.c:378-421 | a granted lease stays live until it is released |
| PoolState.Bounds | src/vps_connection_pool.c:130-255 | active <= total <= maximum and waiting <= maximum waiters |
| PoolQueue.NoOvertakingByNewcomers | src/vps_connection_pool.c:403-421 | no later arrival gets a connection directly while an earlier waiter is still queued |
| PoolQueue.GrantsFollowArrival | src/vps_connection_pool.c:171-211 | among queued callers an earlier arrival is served, or has left, before a later one is granted |
| LibpqStatement.Statement.Start | src/vps_libpq_client_statement.c:507-633 | which phase each operation starts from and leads to; any failure ends in the failed phase |
| LibpqStatement.Statement.OpenCancel | src/vps_libpq_client_statement.c:558-580 | one cancel handle is created and either polled on or finished at once |
| LibpqStatement.Statement.FinishResult | src/vps_libpq_client_statement.c:780-838 | every result it obtains is cleared before it returns, on every path; it succeeds only when libpq gave one accepted result and then no further one |
| LibpqStatement.Statement.FetchResult | src/vps_libpq_client_statement.c:840-988 | a row is held exactly when a row is reported; it completes only after a final good result with the right count and no further result, and then everything obtained was cleared |
| LibpqStatement.LogGrows | src/vps_libpq_client_statement.c:851-971 | the conversation that fits fetching goes on to fit a held row after one more row, and completion after the final result and the end |
| LibpqStatement.Statement.StepResult | src/vps_libpq_client_statement.c:1187-1223 | prepare, describe and execute each go on only after libpq gave one accepted result and then the end; what was asked and answered fits the new phase |
| LibpqStatement.Statement.DrainResults | src/vps_libpq_client_statement.c:74-86 | drained results are cleared one by one |
| LibpqStatement.Statement.Error | src/vps_libpq_client_statement.c:133-182 | finishes a live cancel handle, fails the statement, keeps the connection only for server errors |
| LibpqStatement.Statement.StepCancelDrain | src/vps_libpq_client_statement.c:1051-1112 | completes only at the end of results, after one that shows how the cancelled command ended; each drained result is cleared |
| LibpqStatement.Statement.Poll | src/vps_libpq_client_statement.c:990-1230 | reports only what its stage allows, keeps the phase in step with every command sent and every answer libpq gave, terminates, and only a cancellation can use up the eight internal polls |
| LibpqStatement.Statement.WaitOn | src/vps_libpq_client_statement.c:1232-1284 | refused exactly when the request is not the one last asked for or the connection is not ready |
| LibpqStatement.Statement.RowRelease | src/vps_libpq_client_statement.c:1399-1412 | clears the held row and goes back to fetching |
| LibpqStatement.Statement.Destroy | src/vps_libpq_client_statement.c:1414-1442 | every result was cleared and every cancel handle finished, exactly once |
| ClientStatement.Port.Start | src/vps_client.c:581-658 | allowed by the transition table, and the port state stays related to the libpq phase |
| ClientStatement.Port.Poll | src/vps_client.c:694-782 | every wait the backend returns passes the port's check; rows, completion and failure move both layers together; an uncancelled fetch completes only after libpq gave its rows, a final good result and the end |
| ClientStatement.Port.PublishRow | src/vps_client.c:660-692 | the row callback runs while the backend holds a row; each row gets a new generation |
| ClientStatement.Port.Wait | src/vps_client.c:784-824 | waiting on the request last returned is never refused as an invalid state |
| ClientStatement.Port.Column | src/vps_client.c:902-925 | only a current view reaches the backend, and then a row is held |
| ClientStatement.Port.RowConsumed | src/vps_client.c:927-954 | the held row is released and the statement is fetching again |
| ClientStatement.Port.Close | src/vps_client.c:956-983 | after close nothing obtained from libpq is outstanding |
| ClientStatement.Perform | src/vps_client.c:581-954 | a call can lose the libpq connection but never bring it back, and an operation completes only on a ready one |
| ClientStatement.Run | src/vps_client.c:581-983 | for any sequence of calls with any arguments: no OK answer is refused, no row callback is misplaced, all results and cancel handles are given back |
| ConnectionHealth.Connection.BeginOperation | src/vps_libpq_client_health.c:22-87 | starts exactly when the preflight allows the operation |
| ConnectionHealth.Connection.SendNext | src/vps_libpq_client_health.c:89-149 | sends the next command of the script, or ends when none is left |
| ConnectionHealth.Connection.ResultValid | src/vps_libpq_client_health.c:151-186 | accepts exactly the replies that answer the current command |
| ConnectionHealth.Connection.ReceiveNext | src/vps_libpq_client_health.c:262-303 | a command is complete only after libpq gave one valid result and then the end; anything else fails the connection |
| ConnectionHealth.Connection.CommandComplete | src/vps_libpq_client_health.c:188-213 | given the command's whole exchange, one more command is answered; single-command operations end |
| ConnectionHealth.Connection.Poll | src/vps_libpq_client_health.c:215-330 | terminates for any libpq answers and completes only after the whole script was sent and libpq answered each command with one valid result and the end; a wait asks for what the next wait will accept |
| ConnectionHealth.AnsweredSends | src/vps_libpq_client_health.c:89-213 | the commands sent are exactly the script, in order |
| ConnectionHealth.AnsweredEach | src/vps_libpq_client_health.c:89-304 | being answered up to n means, of each of the first n commands, its sending, one valid result and the end |
| ConnectionHealth.Run | src/vps_libpq_client_health.c:60-330 | in every run each completed operation exchanged exactly its script, one valid result and the end for each command |
| LibpqConnection.Link.ConnectStart | src/vps_libpq_client.c:835-874 | one handle is taken, or the connection has failed |
| LibpqConnection.Link.Start | src/vps_libpq_client.c:805-875 | refused exactly when the operation is neither a first connect nor one on a ready connection |
| LibpqConnection.Link.Readiness | src/vps_libpq_client.c:877-914 | the health script starts only after status, deadline, TLS and identity checks; no failure leaves the connection ready |
| LibpqConnection.Link.ConnectPoll | src/vps_libpq_client.c:950-1004 | at most sixteen steps without a wait; completes only after the connect script was exchanged |
| LibpqConnection.Link.Poll | src/vps_libpq_client.c:928-1005 | completion means the running operation's script was exchanged; a wait names the running operation's phase |
| LibpqConnection.Link.WaitOn | src/vps_libpq_client.c:1007-1087 | refused exactly when nothing runs or the request is not the one last made |
| LibpqConnection.Link.Destroy | src/vps_libpq_client.c:1089-1105 | the handle is given back once |
| ClientConnection.ConnectionPort.Start | src/vps_client.c:305-409 | allowed by the transition table; exactly which allowed starts the libpq connection refuses; a failed port stays failed |
| ClientConnection.ConnectionPort.Poll | src/vps_client.c:410-466 | every wait the backend returns passes the port's check; completion moves both layers and means the script was exchanged |
| ClientConnection.ConnectionPort.Settle | src/vps_client.c:434-466 | what each answer of the backend does to the port |
| ClientConnection.ConnectionPort.Wait | src/vps_client.c:468-499 | waiting on the request last returned is never refused as an invalid state |
| ClientConnection.ConnectionPort.OpenStatement | src/vps_client.c:524-579 | a statement opens only on a connection ready on both layers, and only one; running out of memory before anything is built leaves the connection ready, a failed build loses it |
| ClientConnection.ConnectionPort.StatementCall | src/vps_client.c:581-954 | a call on the open statement, over the same libpq connection, keeps both layers related and never changes the port's state: the recovery of a failed connection is not reached |
| ClientConnection.ConnectionPort.CloseStatement | src/vps_client.c:956-983 | everything the statement took from libpq was given back; an unfinished one loses the connection |
| ClientConnection.ConnectionPort.Close | src/vps_client.c:501-522 | refused exactly while a statement is open; afterwards the handle was given back |
| ClientConnection.Run | src/vps_client.c:305-983 | over any calls on the connection and on its statements, both machines running over one libpq connection: the completed operations form a session (connect, then resets, pings and transactions each ended once) that explains the port's state, each exchanged exactly its script, no good answer is refused, no failed connection comes back, all results and cancel handles of closed statements were given back |
| ClientConnection.RollbackRefused | src/vps_client.c:305-330 | after a cancelled connect the rollback the table allows is refused, whatever libpq answers |
| SocketWait.InitAt | src/vps_deadline.c:58-74 | a deadline exists exactly without 64-bit overflow, and then all of the duration remains |
| SocketWait.RemainingAt | src/vps_deadline.c:93-113 | the time left, and the error cases |
| SocketWait.Execute | src/vps_deadline.c:115-234 | the first pass that decides gives the result; timeouts lie between 1 and the smaller of slice and time left; ready means a non-empty intersection |
| SocketWait.WaitsBounded | src/vps_deadline.c:137-233 | at most expires - first reading + 63 waits, whatever clock, socket and probe do |
| SocketWait.BoundIsReached | src/vps_deadline.c:137-233 | that bound is reached for every duration |
| PathNormalizer.Normalize | src/vps_identity.c:251-326 | the in-place offset-stack loop computes split, resolve, join, with every offset in range, and accepts exactly when the result fits |
| PathNormalizer.OutputBounded | src/vps_identity.c:263-318 | only a bare drive can outgrow its input, by one character, so all other paths within the limit are accepted |
| PathSpec.SegmentsResolved | src/vps_identity.c:286-318 | no empty, `.` or inner `..` segment is left, and no `..` under a root |
| PathSpec.RootedStable | src/vps_identity.c:251-326 | normalising a rooted path again changes nothing |
| PathSpec.LeadOf | src/vps_identity.c:286-318 | counting depth over the pieces finds the first segment that resolving leaves |
| PathSpec.IdempotentIffStable | src/vps_identity.c:251-326 | the exact condition, on the pieces between separators, under which normalising again changes nothing, for every path |
| PathSpec.NotAlwaysIdempotent | src/vps_identity.c:271-310 | two paths that normalising again changes, and one it does not |
| IdentityText.ParsePort | src/vps_identity.c:171-197 | the 32-bit loop reads exactly the decimal numbers 1..65535, empty meaning 5432 |
| IdentityText.WriteDecimal | src/vps_identity.c:199-213 | the reversed digits give the decimal text |
| IdentityText.ValueDecimal | src/vps_identity.c:171-213 | a printed number reads back as itself |
| IdentityText.NormalizeList | src/vps_identity.c:121-249 | the list scanner, for ports and for texts, writes the normal form and accepts exactly when there is one that fits |
| IdentityText.CopyNormalized | src/vps_identity.c:89-119 | trims, checks and lower-cases one value |
| IdentityText.PortListIs | src/vps_identity.c:215-249 | what the list scanner writes for ports is the printed list of port numbers |
| IdentityText.PortsAlike | src/vps_identity.c:215-249 | two accepted port lists normalise alike if and only if they denote the same port numbers |
| IdentityText.PortsIdempotent | src/vps_identity.c:215-249 | a normal port list is its own normal form |
| IdentityText.TextIdempotent | src/vps_identity.c:89-119 | a normal text is its own normal form |
| ConnectionIdentity.CanonicalInjective | src/vps_identity.c:58-82 | canonical bytes are equal if and only if all 21 values are |
| ConnectionIdentity.NormalizeDuration | src/vps_identity.c:384-419 | an argument wins over the configured text; text is trimmed, read within 32 bits and printed |
| ConnectionIdentity.Identity.Build | src/vps_identity.c:495-637 | builds the canonical bytes of the 21 normal values, never exceeds the limit, and leaves the identity alone on failure |
| ConnectionIdentity.SameIffSameValues | src/vps_identity.c:495-667 | identities of the same generations compare as same if and only if the 21 normal values agree |
| ConnectionIdentity.CompareIsEquivalence | src/vps_identity.c:646-667 | being the same is an equivalence on built identities |
| MetadataSnapshot.Snapshot.AddField | src/vps_metadata_cache.c:72-89 | appends the field and its name, earlier fields keep their names |
| MetadataSnapshot.Snapshot.Validate | src/vps_metadata_cache.c:105-135 | accepts exactly the valid contents |
| MetadataSnapshot.Snapshot.Encode | src/vps_metadata_cache.c:137-223 | writes the stored form; invalid and oversized snapshots are told apart |
| MetadataSnapshot.Snapshot.Decode | src/vps_metadata_cache.c:225-301 | succeeds exactly for what `Decoded` accepts and memory allows, reads in bounds, tells the missing buffer from a bad format, and leaves the target alone otherwise |
| MetadataSnapshot.Snapshot.Compare | src/vps_metadata_cache.c:303-347 | the drift between two contents |
| MetadataCodec.DecodeEncode | src/vps_metadata_cache.c:137-301 | what is stored is what is read |
| MetadataCodec.DecodedStorable | src/vps_metadata_cache.c:225-301 | anything accepted is valid and can be stored again in as many bytes |
| MetadataCodec.EncodeDecode | src/vps_metadata_cache.c:137-301 | an accepted string is the stored form of its content if and only if its padding is zero |
| MetadataCodec.PaddedAccepted | src/vps_metadata_cache.c:225-301 | every storable snapshot, under every hash, has a second accepted form, with non-zero padding, that decodes to it |
| MetadataCodec.NoDriftAfterRoundTrip | src/vps_metadata_cache.c:303-347 | a snapshot read back shows no drift |
| DmlBuilder.WritePlan.Identifier | src/vps_dml.c:13-27 | a quoted name with doubled quotes, exactly when the name is usable and fits |
| DmlBuilder.WritePlan.WriteValue | src/vps_dml.c:164-219 | the placeholder and the slot get the same number |
| DmlBuilder.WritePlan.OriginalPredicate | src/vps_dml.c:260-316 | one null-safe equality a key column, then the version test, with their slots |
| DmlBuilder.WritePlan.Returning | src/vps_dml.c:222-258 | the key columns and the version come back |
| DmlBuilder.Choose | src/vps_dml.c:346-411 | the columns to write, or why the first refused one may not be written |
| DmlBuilder.WritePlan.Build | src/vps_dml.c:318-442 | succeeds exactly for plannable writes, with the specified text and slots, and leaves an empty plan otherwise; with memory and a text that fits, the fault reported is the first of arguments, columns from left to right, identity |
| SqlText.ScanRender | src/vps_dml.c:13-61 | an independent reader gets back exactly the tokens that were written, whatever quotes names contain |
| SqlReader.SqlReads | src/vps_dml.c:318-442 | the reader of such statements, keyword by keyword, understands every statement of the grammar |
| DmlMeaning.StatementReadsBack | src/vps_dml.c:318-442 | the text of every planned write reads back as exactly the statement meant: table, columns with values, null-safe key tests joined by AND, version test, returned columns |
| DmlMeaning.PlaceholdersInOrder | src/vps_dml.c:164-316 | the placeholders of the text read $1..$n from left to right, one for each slot |
| DmlMeaning.ValueSlotDescribes | src/vps_dml.c:342-418 | slot k describes the value at $k, beside its column's name in the text |
| DmlMeaning.KeySlotDescribes | src/vps_dml.c:272-286 | the old key values follow, each in the test of its key column |
| DmlMeaning.SelectedIff | src/vps_dml.c:260-316 | in three-valued logic the text selects exactly the rows with the old key, NULL matching NULL, and the old version, where a NULL never matches xmin |
| DmlMeaning.AtMostOneRow | src/vps_dml.c:260-316 | on a table with distinct key tuples the text selects at most one row |
| DmlMeaning.UpdateWrites | src/vps_dml.c:391-418 | an UPDATE's text gives every written column of a selected row its argument and changes no other column and no other row |
| DmlMeaning.VerdictIs | src/vps_dml.c:260-461 | on a table with distinct keys the count of selected rows is classified as done exactly when a row with old key and version is there, else as changed or missing, never as broken |
| DmlMeaning.ClassifyCount | src/vps_dml.c:451-461 | what the affected count says, by operation and mode |
| QueryCache.Cache.Begin | src/vps_query_cache.c:155-177 | a ready cache grants, an empty one makes the caller the only builder, a building one makes it wait |
| QueryCache.Cache.Finish | src/vps_query_cache.c:194-217 | publishes once, or closes the candidate and is empty again |
| QueryCache.Cache.Release | src/vps_query_cache.c:220-238 | gives back one lease of the published database |
| QueryCache.Cache.Destroy | src/vps_query_cache.c:240-265 | busy exactly while building, candidate open or not, or leased; afterwards every database opened was closed |
| QueryCache.Run | src/vps_query_cache.c:113-265 | over every interleaving with any lease given back any number of times: one builder at a time, one publication ever, all leases of it; a database is closed under a lease if and only if the cache was destroyed and a holder's release succeeded twice |
| QueryCache.ClosedIffDoubled | src/vps_query_cache.c:220-265 | that equivalence in every reachable state |
| QueryCache.StepRelease | src/vps_query_cache.c:220-238 | a release succeeds for any copy while leases are counted, and each one beyond a holder's first is doubled |
| QueryCache.CopiedLeaseBreaks | src/vps_query_cache.c:220-265 | a run in which a copied lease, given back twice, lets destroy close a leased database |
| CancelRegistry.Registry.Register | src/vps_cancel.c:70-97 | the token becomes the head of the list and has no request |
| CancelRegistry.Registry.Remove | src/vps_cancel.c:111-119 | the walk finds and unlinks exactly that token |
| CancelRegistry.Registry.RequestAll | src/vps_cancel.c:126-151 | marks and counts every token of the list |
| CancelRegistry.Registry.Cleanup | src/vps_cancel.c:44-61 | clears every token and empties the list |
| CancelRegistry.Unregister | src/vps_cancel.c:99-124 | a token leaves the registry it knows |
| CancelRegistry.ProbeToken | src/vps_cancel.c:153-167 | requested exactly when a request succeeded since the token's last registration |
| CancelRegistry.Run | src/vps_cancel.c:70-167 | after any run the list is acyclic, without repetition, counted, and holds exactly the registered tokens; every probe of the run answered what the events before it say: registered or not, and asked since |
| Utf8.Validate | src/vps_arguments.c:78-126 | accepts exactly the strings made of well-formed sequences |
| Utf8.SequenceLength | src/vps_query_source.c:46-85 | accepts exactly a well-formed sequence at the front and gives its length |
| Utf8.ScanAll | src/vps_query_source.c:46-85 | stepping with that check accepts the same strings as the argument validator |
| Utf8.ValidIffEncodes | src/vps_arguments.c:78-126 | accepted if and only if the string encodes some Unicode scalar values (section 4 of RFC 3629), and then only those |

## Left out

- TLS verification, conninfo keywords and the libpq wrappers: their answers are arbitrary here.
- The cast of the old version to `xid` is the identity, since its slot has that type.
- Logging, result names, error classes and ABI checks: single-branch facts.
- Allocation failure is a flag or an arbitrary choice; how much memory is reserved is not modelled.
- Projection is proved to cover what a plan needs, but the pushdown theorem speaks of whole rows.
- vps_dml_policy_build: its result is described by `PolicyOk`; building it from catalogue metadata is not modelled.
- Spatial columns in writes, where one value takes two placeholders, because their expressions come from code outside the core.
- DmlBuilder.WritePlan.Build: when memory or room runs out beside another fault, which of the two is reported is left open, because the source meets them in an order that depends on how much was written.
- MetadataSnapshot.Snapshot.Decode: reads all fields and then adds them, where the source adds each field as it is read; the accepted inputs and the result are the same.
- QueryCache.Cache.Begin: a caller that finds a build running waits; how long it waits before it times out (`src/vps_query_cache.c:113-140`) is not modelled.
- Condition variables are not modelled as such: a waiting caller may be resumed at any time, which covers lost and spurious wakeups but says nothing about fairness.
- The query text scanner beyond its UTF-8 step, cursors, retries and the transaction coordinator: small machines that would only add easy members.
- Hash values in fingerprints: treated as arbitrary functions.
