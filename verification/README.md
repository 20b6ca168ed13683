# tetherdb: the delivery path, modelled and proved

tetherdb copies row changes from one database to another: a reader turns a table or a
change log into changes, a dialer carries batches of them over a connection that may
break at any moment, a listener hands them to a writer, and the writer turns them into
SQL inside one transaction. Nothing in that chain delivers a batch exactly once; the
design is that a batch may arrive any number of times and the target is right anyway.
This project models the chain and proves that it works, and where it does not.

| file | what it holds |
|---|---|
| `Wrappers.dfy`, `Connector.dfy`, `Transport.dfy` | Option; rows, changes and table references; wire messages |
| `Text.dfy` | string order, sorted key lists, decimals, joining |
| `Sql.dfy`, `SqlGen.dfy` | lexer, syntax tree and parser for the emitted SQL; the emitted texts; print/parse round trips |
| `Store.dfy` | what a statement does to the target, what a change means, and that both agree |
| `Replay.dfy` | absorption, idempotence, replay convergence |
| `Postgres.dfy` | the writer: building statements, running a batch in a transaction, `Apply` |
| `Dialer.dfy` | the dialer for any caller: steps of the stream goroutine, the ledger of batches, backoff, the class |
| `Channels.dfy` | what the dialer's channels do in every run: first in, first out, sixteen places |
| `Listener.dfy` | the sink side of the handshake |
| `Delivery.dfy` | caller, dialer, wire, listener and writer as one state machine |
| `Runs.dfy` | runs of that machine: deliveries, every kind of fault, recovery, and a run without the rule on old handlers |
| `ChangeStream.dfy`, `StreamProperties.dfy` | the change stream: cursor, buffer, windows, and what its runs deliver |
| `ChangeTracking.dfy` | Change Tracking windows, which overlap, and why they converge |
| `InitialSync.dfy` | the resumable table scan |

## How the pieces fit

**Writer.** A table maps a key (a row restricted to the key columns) to a row; a column
that is not in a row is NULL. `Store.ApplyChange` is the map-level meaning of a change,
total on all changes. `Store.Exec` lexes, parses and runs SQL text with its positional
arguments. `Postgres.CompilePreservesMeaning` says that the text generated for a
well-formed change does what the change means; well-formed is the contract at
`internal/connector/connector.go:27`: the key columns are exactly `PK`, `PK` is not empty,
and on an upsert it is `After` restricted to the key columns, without NULL. Each table
has one set of key columns. Delimited identifiers follow section 5.2 of ISO/IEC 9075-2.

**Dialer.** `Dialing.Step` is one action of the stream goroutine or of a caller, the
choice of the `select` being the environment's. The class `Dialing.Dialer` is the
imperative form; each method is proved to be `Step`, a run of `Step`, or a part of one,
and the theorems are about all runs of `Step`. The ledger is a record kept beside a run:
which batches were handed to the current connection and not yet answered, and how often a
batch was accepted, answered by a reply of its own, and lost. A sink answers in order, so
a reply is for the oldest batch; whether it carries that batch's id the dialer does not
check, and the ledger notes if one does not.

**Delivery.** `Delivery.Do` is one step of any participant. Any connection can die at any
step, frames and everything in `recvCh` may vanish, a failed write may have arrived, and a
COMMIT that reports an error may have landed. What is assumed, from the documented
contracts:

* the caller sends one batch at a time and waits for its Ack or Nack
  (`internal/transport/dialer.go:111`), and sends the same batch again on a Nack
  (`internal/transport/messages.go:66`);
* the sink's handler calls `Apply` and then sends one Ack or Nack, and an Ack only after a
  nil result (`internal/transport/listener.go:17`);
* the handler of a new connection applies a batch only when no handler of an older
  connection still holds a different one; a late copy of the same batch is harmless.
  Nothing in the code enforces this. `Delivery.Free` is the machine without the rule:
  `Runs.LateRun` is a run of it, for any batches, in which the first two were
  acknowledged and a late handler then applies the first again, and
  `Runs.LateHandlerBreaksOrder` says exactly when the target is right all the same.

The faults are steps of the machine, not only allowed for: `Runs.RefusedOrUnreported`,
`Runs.LostThenDelivered` and `Runs.LateCopyHarmless` are runs with each of them, and
`Runs.Recovers` leads from every reachable state on to the end.

**Streams.** The CDC source is an append-only log ordered by LSN; a fetch with position p
sees the entries up to p. The Change Tracking source is a history of changes, asked table
by table at versions that do not decrease and are not below the position read first; its
answers are net changes with whole current rows. The initial sync reads a fixed table in
the database's own order of key values.

## Where documentation and code disagree

The model follows the code.

* `Cursor()` is documented as the position of the last returned change
  (`internal/connector/sqlserver/changes.go:101`), and the stream as moving its cursor
  only with `Next` so that nothing is skipped
  (`internal/connector/sqlserver/changes.go:25`). The cursor moves when a window is
  fetched (`internal/connector/sqlserver/changes.go:88`):
  `StreamProperties.CursorRunsAhead` is a concrete example,
  `StreamProperties.ResumeLosesPending` the exact condition.
* `InitialSync` is documented to skip the rows at or below `LastPK`
  (`internal/connector/sqlserver/initialsync.go:20`). With more than one key column the
  scan starts over (`internal/connector/sqlserver/initialsync.go:141`): `InitialSync.SkipsDelivered`.
* `SendBatch` is documented to block until the batch was written
  (`internal/transport/dialer.go:111`); it returns when the batch is queued, where it
  stays through any number of failed attempts: `Dialing.FailedAttemptsRetried`.
* `stream` is documented to requeue the batch in flight (`internal/transport/dialer.go:168`).
  It remembers only the last one written, any Ack or Nack clears it, and a full queue
  drops it: `Dialing.ExactLoss`.
* `Next` is documented to poll after a wait
  (`internal/connector/sqlserver/changes.go:93`); its select has no timer, so after an
  empty fetch only cancellation ends the call. This is a note: no liveness is claimed.
* A rejected handshake is documented as permanent (`internal/transport/dialer.go:157`);
  `Run` retries it: `Dialing.FailedAttemptsRetried`.

## Model

| member | source | states |
|---|---|---|
| Text.SortStrings | internal/connector/postgres/apply.go:141-148 | The sort yields a sorted list holding exactly the keys, none twice. |
| Text.SortedIsUnique | internal/connector/postgres/apply.go:141-148 | There is only one such list, so the statement text does not depend on the iteration order of the map. |
| Text.LeDecides | internal/connector/postgres/apply.go:146 | The order is ascending: the first difference decides, and a prefix comes first. |
| Text.DecimalRoundTrip | internal/connector/postgres/apply.go:46 | The number of a placeholder is read back from its decimal text. |
| Sql.LexAppend | internal/connector/postgres/apply.go:79-94 | Lexing is compositional: across a boundary, the tokens of a concatenation are the tokens of its parts. |
| Sql.LexJoin | internal/connector/postgres/apply.go:79-94 | A list joined with a separator lexes to its items' tokens with the separator's between them. |
| Sql.ParseListPrinted | internal/connector/postgres/apply.go:79-94 | A printed list of any length parses back to its items, leaving what follows. |
| SqlGen.QuotedDoubled | internal/connector/postgres/apply.go:128-130 | Whatever a name contains, a reader of the quoted form finds the closing quote where it was written and recovers the name. |
| SqlGen.LexTable | internal/connector/postgres/apply.go:133-138 | A quoted table reference lexes to one identifier, or to two around a dot, whatever dots and quotes the names hold. |
| SqlGen.UpsertRoundTrip | internal/connector/postgres/apply.go:37-99 | For all names, the upsert text parses back to exactly its table, columns, placeholder numbers, conflict columns and SET list (or DO NOTHING); it is rejected if and only if a name is empty or there is no column or key column. |
| SqlGen.DeleteRoundTrip | internal/connector/postgres/apply.go:104-123 | The same for a delete: table and WHERE conjuncts with their placeholder numbers. |
| Store.ApplyAt | internal/connector/postgres/apply.go:33-36 | A change alters the row under its own key, by overlay, insertion or removal, and no other row. |
| Store.ApplyAllAppend | internal/connector/postgres/apply.go:15-31 | Applying two lists of changes one after the other is applying their concatenation. |
| Store.ApplyChangeValid | internal/connector/connector.go:26-35 | Well-formed changes keep every row filed under its own key, with no NULL in a key column. |
| Store.SetListOverlays | internal/connector/postgres/apply.go:50-60 | Assigning the SET list, which omits the key columns, overlays the old row with all of After. |
| Store.InsertRowMeaning | internal/connector/postgres/apply.go:76-95 | Both branches, DO NOTHING and DO UPDATE, give the map-level upsert: old row overridden by After if the key exists, After if not. |
| Store.UpsertMeaning | internal/connector/postgres/apply.go:37-99 | The upsert statement with its positional arguments is accepted and does what the change means, all other rows and tables untouched. |
| Store.UpsertAccepted | internal/connector/postgres/apply.go:37-99 | The upsert statement is refused if and only if PK does not name the key columns of the table or After lacks a value, or has NULL, in one of them. |
| Store.MatchesKey | internal/connector/postgres/apply.go:107-112 | The WHERE clause holds of a row if and only if the row is filed under the change's key. |
| Store.NullMatchesNothing | internal/connector/postgres/apply.go:107-112 | A comparison with NULL, on either side, selects no row. |
| Store.DeleteMeaning | internal/connector/postgres/apply.go:104-123 | The delete statement removes exactly the row under the key; a missing row is a no-op. |
| Replay.BandRows | internal/connector/postgres/apply.go:15-31 | On one table, x then o then x is o then x, for any two changes, partial upserts and deletes included. |
| Replay.Band | internal/connector/postgres/apply.go:15-31 | The same law on the whole database. |
| Replay.Absorb | internal/connector/postgres/apply.go:15-31 | Applying a change that occurs in a list beforehand does not alter the list's result. |
| Replay.AbsorbAll | internal/connector/postgres/apply.go:15-31 | The same for any list of such changes. |
| Replay.Idempotent | internal/connector/postgres/postgres.go:159-169 | Applying a batch twice equals applying it once. |
| Replay.DeliverConverging | internal/connector/postgres/postgres.go:159-169 | The invariant of every delivery trace: from the table and position reached, running the log from any earlier position to its end gives the final table. |
| Replay.JumpReplays | internal/connector/postgres/postgres.go:159-169 | A trace that delivers i changes, goes back to j and runs to the end applies the first i changes and then all from j on. |
| Replay.ReplayConverges | internal/connector/postgres/postgres.go:159-169 | A trace that steps forward and jumps back any number of times leaves, once it runs to the end, what one in-order application leaves. |
| Postgres.SortedKeys | internal/connector/postgres/apply.go:141-148 | Returns the one sorted listing of the map's keys, in whatever order the map yields them. |
| Postgres.SetList | internal/connector/postgres/apply.go:50-60 | Returns one SET clause for every column that is not a key column, in order. |
| Postgres.QuoteAll | internal/connector/postgres/apply.go:62-72 | Every column quoted, in order. |
| Postgres.PositionalArgs | internal/connector/postgres/apply.go:42-48 | Placeholders $1 to $n and the values of the columns in the same order. |
| Postgres.WhereList | internal/connector/postgres/apply.go:107-112 | One test per key column, numbered from 1, and the key values in that order. |
| Postgres.BuildUpsert | internal/connector/postgres/apply.go:37-95 | The text and arguments are those the round trip and meaning theorems are about. |
| Postgres.BuildDelete | internal/connector/postgres/apply.go:104-118 | Likewise for a delete. |
| Postgres.ExecUpsert | internal/connector/postgres/apply.go:37-99 | Sends that one statement; its failure is the result and leaves the transaction's tables alone. |
| Postgres.ExecDelete | internal/connector/postgres/apply.go:104-123 | Likewise for a delete. |
| Postgres.ExecChange | internal/connector/postgres/apply.go:18-28 | Insert and Update upsert, Delete deletes, any other code fails without a statement. |
| Postgres.ApplyBatch | internal/connector/postgres/apply.go:15-31 | Success: every change ran, in order. Error at i: everything before i ran, i failed for a reason, and no statement of a later change was sent. |
| Postgres.UnknownOpFails | internal/connector/postgres/apply.go:23-25 | An operation code other than the three fails its batch, whatever else is in it. |
| Postgres.CompilePreservesMeaning | internal/connector/postgres/apply.go:37-123 | For every valid database and well-formed change the generated text is accepted and has exactly the map-level effect. |
| Postgres.RunPreservesMeaning | internal/connector/postgres/apply.go:15-31 | So does every batch of such changes, and the database stays valid. |
| Postgres.OnlyFaultsStop | internal/connector/postgres/apply.go:15-31 | On well-formed changes and a valid database no generated statement is refused. |
| Postgres.Pool.Begin | internal/connector/postgres/postgres.go:174-177 | A transaction starts from the current tables with nothing sent, or fails and changes nothing. |
| Postgres.Tx.Commit | internal/connector/postgres/postgres.go:186-188 | The work lands or not, and nil implies that it did; a landed commit may be reported as an error. |
| Postgres.Apply | internal/connector/postgres/postgres.go:169-190 | The target is the old one or the whole batch in order; nil implies the latter; each error names its cause, and only a failed COMMIT may hide a landed batch. A failure at change i means that the server was sent the statements up to i and no later one; on a valid target with well-formed changes, only a fault can cause it. |
| Dialing.Dialer.SendBatch | internal/transport/dialer.go:117-124 | Appends to the queue if it has room, and is refused if not. |
| Dialing.Dialer.Requeue | internal/transport/dialer.go:187-192 | Appends to the queue, or drops the batch if it is full. |
| Dialing.Dialer.Leave | internal/transport/dialer.go:196-205 | Leaving the stream puts the in-flight batch back at the end of the queue. |
| Dialing.Dialer.Route | internal/transport/dialer.go:206-214 | Any Ack or Nack clears the in-flight batch and goes to its channel, blocking the goroutine if that is full. |
| Dialing.Dialer.Turn | internal/transport/dialer.go:194-222 | One turn of the select, whichever branch is chosen, is one step of the machine; only the send branch writes, and it writes the oldest queued batch. |
| Dialing.Dialer.Stream | internal/transport/dialer.go:169-223 | The select loop is the step machine from Open on, for every schedule, and writes exactly the batches it takes. |
| Dialing.Dialer.RunOnce | internal/transport/dialer.go:127-164 | If the Hello, the first message or its acceptance is missing, nothing but Hello is written and the channels are as the caller leaves them; after an accepting HelloAck, and only then, the stream begins. |
| Dialing.Dialer.Run | internal/transport/dialer.go:77-107 | The attempts in turn, with the documented waits between them; the attempt count is never reset. |
| Dialing.StreamEndIsSteps | internal/transport/dialer.go:169-223 | A stream is a prefix of its schedule's steps. |
| Dialing.AttemptsAreSteps | internal/transport/dialer.go:77-164 | The whole loop of Run, with whatever the caller does meanwhile, is one run of the step machine. |
| Dialing.FailedAttemptsRetried | internal/transport/dialer.go:99-106 | Any number of attempts that fail to dial or greet, or are answered by anything but an accepting HelloAck, change nothing and are followed by the next; what SendBatch queued stays queued. |
| Channels.StreamsIfAccepted | internal/transport/dialer.go:127-164 | An attempt begins to stream if and only if it was dialed and greeted and the first message is a HelloAck that accepts. |
| Channels.RefusedDoesNotStream | internal/transport/dialer.go:144-160 | Any other attempt leaves the channels as the caller's own steps do, whatever would have happened to its stream. |
| Channels.CallerIsServed | internal/transport/dialer.go:117-124 | Between connections SendBatch, Acks and Nacks work all the same. |
| Channels.QueueIsFifo | internal/transport/dialer.go:117-223 | For every run: the queue followed by what entered it, from SendBatch or requeued, is what left it in time order followed by the queue. |
| Channels.WrittenLeft | internal/transport/dialer.go:215-221 | The frames of a stream are the batches that left the queue, in that order, and there are none after its end. |
| Channels.SixteenFit | internal/transport/dialer.go:59-67 | SendBatch is refused, and a reply blocks the stream, exactly when sixteen are waiting. |
| Channels.StaysBounded | internal/transport/dialer.go:59-67 | In every run no channel holds more than sixteen, and the stream blocks only on a full one. |
| Channels.AcksAreFifo | internal/transport/dialer.go:206-210 | Every Ack read reaches the caller in order, through Acks, and nothing else does. |
| Channels.NacksAreFifo | internal/transport/dialer.go:211-214 | Every Nack read reaches the caller in order, through Nacks, and nothing else does. |
| Channels.AnswerIsBooked | internal/transport/dialer.go:206-214 | In the ledger a batch answered by a reply of its own is answered; answered by another's it is lost, and the mismatch is noted. |
| Channels.AnsweredByReplies | internal/transport/dialer.go:206-214 | A batch counts as answered at most as often as replies with its id were read. |
| Dialing.GoneIs | internal/transport/dialer.go:183-205 | What a closing connection takes with it: all unacknowledged batches but the one it can requeue. |
| Dialing.Conservation | internal/transport/dialer.go:169-223 | For every caller, schedule and batch: accepted = queued + unacknowledged + answered by its own reply + lost; if replies name the batches they are for, nothing is lost unless two batches were unacknowledged on one connection or a requeue met a full queue. |
| Dialing.ExactLoss | internal/transport/dialer.go:187-221 | In every reachable state, closing loses nothing if and only if nothing is unacknowledged, or one batch is, it is in flight, and the queue has room. |
| Dialing.TotalWaitClosedForm | internal/transport/dialer.go:77-98 | The waiting before attempt n+1 sums to 2^n - 1 seconds for n up to 6 and to 63 + 60(n-6) beyond. |
| Dialing.NoSpinning | internal/transport/dialer.go:77-98 | At most 7 + (T-63)/60 attempts fit into T seconds of waiting, T at least 63. |
| Listener.Answer | internal/transport/listener.go:133-156 | The answer accepts if and only if the first message is a Hello and every subscribed table is published. |
| Listener.RefusalNamesFirst | internal/transport/listener.go:140-149 | A refusal gives the reason, with the name of the first subscribed table that is not published. |
| Listener.HandleWS | internal/transport/listener.go:118-162 | After an upgrade, one HelloAck for a first message and none for a failed read; a configured handler runs if and only if the answer accepts and could be sent. |
| Delivery.DoKeeps | internal/transport/dialer.go:169-223 | Every step of every participant keeps the invariant: where the outstanding batch is, what is on the wire, and what the target holds. |
| Delivery.ClosingKeeps | internal/transport/dialer.go:183-205 | Giving up a connection keeps it: the queue has room for the in-flight batch, and what is still on the wire is that batch. |
| Delivery.ServesKeep | internal/connector/postgres/postgres.go:169-190 | A handler step keeps it, whether the batch lands, is refused, or lands unreported, and however often it was applied before. |
| Delivery.HeldLands | internal/transport/listener.go:15-20 | A copy applied late by an old handler changes nothing or lands the outstanding batch, and what old handlers still hold stays harmless. |
| Delivery.ExactlyOnceEffect | internal/transport/dialer.go:169-223 | In every reachable state, with a Acks consumed, the target is batches 1..a applied in order, or 1..a+1, and nothing else; after the last Ack it is all of them. |
| Delivery.Custody | internal/transport/dialer.go:183-222 | The outstanding batch is in exactly one of queue, in flight, Acks, Nacks, and a Nack held there names it; requeue never meets a full queue and the loop never blocks delivering a reply. |
| Delivery.AckMatches | internal/transport/dialer.go:206-214 | Every Ack queued or still on its way to a live stream names the batch the caller waits for, and that batch is already in the target. |
| Delivery.HandlerIsApply | internal/connector/postgres/postgres.go:169-190 | The effects a handler step may have are those in the outcome that Apply guarantees. |
| Delivery.Handle | internal/transport/listener.go:15-20 | The documented handler, Apply and then one reply naming the batch, does what a handler step does; without other faults, landed and reported are decided by COMMIT alone. |
| Delivery.SqlRunsAsModelled | internal/connector/postgres/apply.go:15-123 | In every reachable state the target is valid, and the SQL generated for any well-formed batch runs and does to it what a handler step does. |
| Delivery.ProtocolShape | internal/transport/listener.go:126-161 | Every connection's frames are Hello, its answer, then batches and replies in turn, and those only if every subscribed table is published; the frame being written, even by a write that fails, keeps that shape; no batch is on its way to an unaccepted handler. |
| Delivery.RefusedDeliversNothing | internal/transport/dialer.go:148-158 | A subscription that is not published never changes the target, however often it is retried. |
| Runs.CanDeliver | internal/transport/dialer.go:169-223 | Undisturbed, the machine delivers any number of batches from any point on, so the results above are not about an empty set of runs. |
| Runs.HandlerStep | internal/connector/postgres/postgres.go:186-188 | A served batch lands or not, and its reply is an Ack or a Nack, in every combination COMMIT allows; landing a second time changes nothing. |
| Runs.RefusedOrUnreported | internal/connector/postgres/postgres.go:186-188 | From every delivery a run leads to a COMMIT that fails, and one to a COMMIT that lands and reports an error: the caller still waits, the batch is in the target or not, and the Nack is on the wire. |
| Runs.NackedThenDelivered | internal/transport/messages.go:65-66 | After either, the batch sent again on the Nack is in the target once. |
| Runs.LostThenDelivered | internal/transport/dialer.go:194-221 | A write that fails, a frame that is lost after a write, a batch or an Ack lost on the wire, an Ack read and dropped: each is a run, and ends with the batch in the target once and acknowledged. |
| Runs.LateCopyHarmless | internal/transport/listener.go:15-20 | A copy that an old handler holds while the batch is delivered anew, and then applies, is permitted and changes nothing. |
| Runs.ReaderHoldsFour | internal/transport/dialer.go:170-181 | The reader runs at most four messages ahead of the stream. |
| Runs.Recovers | internal/transport/dialer.go:77-223 | From every reachable state a run leads to the end: every batch acknowledged, the target complete, nothing queued, held or on the wire. |
| Runs.LateRun | internal/transport/listener.go:15-20 | That run for any two or more batches: the first is stranded by a failing write and delivered again, the second is delivered, and the old handler then applies the first. |
| Runs.LateHandlerBreaksOrder | internal/transport/listener.go:15-20 | Without the rule on old handlers there is a run after which both of any two batches are acknowledged and the target is in order if and only if the first, applied once more after the second, changes nothing. |
| Runs.LateHandlerExample | internal/transport/listener.go:15-20 | There are two batches for which the target ends out of order. |
| ChangeStream.ScanCDCRows | internal/connector/sqlserver/changes.go:177-231 | Operation 2 is an insert, 1 a delete holding the row in PK, 4 an update, others are skipped, in order; a failing cursor gives an error and no changes. |
| StreamProperties.RawMeaning | internal/connector/sqlserver/changes.go:207-222 | What the codes mean on rows: with its key filled in, the change scanned for 2 or 4 puts the row under its key, that for 1 removes the row under its key, and any other code does nothing; 2 is an insert and 4 an update. |
| ChangeStream.SplitsAtFirstDot | internal/connector/sqlserver/probe.go:87-93 | A table name splits into schema and name if and only if it is two non-empty parts around its first dot. |
| ChangeStream.SlicesAdjoin | internal/connector/sqlserver/changes.go:122-144 | Adjoining windows of one table's log make one window: nothing at the seam is lost or doubled. |
| ChangeStream.ChangeStream.constructor | internal/connector/sqlserver/changes.go:38 | A stream has the cursor it is given and nothing buffered. |
| ChangeStream.Changes | internal/connector/sqlserver/changes.go:33-64 | A stream starts at the given cursor, or at the current position if there is none; before Probe, or if that position cannot be read, there is an error and no stream. |
| ChangeStream.ChangeStream.Fetch | internal/connector/sqlserver/changes.go:122-144 | The position first, then the tables in turn; any failure fails the fetch; the fields do not change. |
| ChangeStream.FetchOutcome | internal/connector/sqlserver/changes.go:122-144 | A fetch fails if and only if the position cannot be read, or it is new and a table name does not split or a query fails; at a position that is not new it does nothing; else it moves to the position. |
| ChangeStream.FetchesNewerVersion | internal/connector/sqlserver/changes.go:245-273 | Change Tracking: a newer version is fetched, and brings the answers of all tables end to end. |
| ChangeStream.FetchesOtherPosition | internal/connector/sqlserver/changes.go:122-144 | CDC: any other position is fetched, and brings the window up to it. |
| ChangeStream.ChangeStream.Next | internal/connector/sqlserver/changes.go:75-99 | Returns the oldest buffered change, fetching only if there is none; a failed or empty fetch changes nothing. |
| ChangeStream.NextOutcome | internal/connector/sqlserver/changes.go:75-99 | An error only for a failed fetch, a wait only for an empty one, both with nothing buffered and nothing changed; otherwise the oldest change not yet returned. |
| ChangeStream.NextConserves | internal/connector/sqlserver/changes.go:75-99 | One call adds to returned plus buffered exactly the window it fetched, from the old cursor to the new one, or nothing. |
| ChangeStream.WindowInvariant | internal/connector/sqlserver/changes.go:75-144 | For every run of Next: returned followed by buffered is the concatenation of adjoining windows from the start cursor to the current one. |
| StreamProperties.EveryTableExactly | internal/connector/sqlserver/changes.go:75-144 | For every run and table, the table's part of that is its exact log slice, in order, if and only if the table is listed once or the slice is empty. |
| StreamProperties.ResumeLosesPending | internal/connector/sqlserver/changes.go:101-108 | Resuming from Cursor() misses nothing if and only if nothing was buffered; otherwise exactly the buffer is missed. |
| StreamProperties.CursorRunsAhead | internal/connector/sqlserver/changes.go:88-108 | A log and a poll for which Cursor() is past the change just returned. |
| StreamProperties.TableView | internal/connector/postgres/apply.go:15-31 | A table is affected by its own changes only. |
| StreamProperties.TableOrderHarmless | internal/connector/sqlserver/changes.go:131-143 | Applying any list of changes table by table, even with a table listed twice, ends as applying it in its own order does. |
| StreamProperties.WindowInCommitOrder | internal/connector/sqlserver/changes.go:131-143 | The same for one fetched window. |
| StreamProperties.RunInCommitOrder | internal/connector/sqlserver/changes.go:75-144 | For every run of Next, and however the keys that the scanner leaves out are filled in, applying what was returned and buffered ends as the log in global commit order does. |
| StreamProperties.SliceLeads | internal/connector/sqlserver/changes.go:122-144 | A table's log slice leads from the source as it was at one position to the source at the other. |
| StreamProperties.RunFollowsSource | internal/connector/sqlserver/changes.go:75-231 | For every run of Next and subscribed table, keys filled in: returned and buffered changes bring a target that shows the source at the start position to the source at the cursor. |
| ChangeTracking.NetSets | internal/connector/sqlserver/changes.go:286-299 | Replaying net changes sets exactly the keys they name to their rows at the time of the query. |
| ChangeTracking.NetConverges | internal/connector/sqlserver/changes.go:276-289 | A window that starts before the version the target shows still brings it to the version of the query. |
| ChangeTracking.FetchShows | internal/connector/sqlserver/changes.go:245-273 | A fetch, the tables asked in turn after the position was read and any of them listed twice, leaves every table as it was when last asked and none behind the new cursor. |
| ChangeTracking.RunConverges | internal/connector/sqlserver/changes.go:75-99 | In every run of Next, overlapping windows included, applying returned and buffered changes shows each table as of its last question, at or past the cursor and at or past every version at which a call found changes. |
| InitialSync.ScanTable | internal/connector/sqlserver/initialsync.go:137-157 | A WHERE above the cursor only for a cursor and one key column; ORDER BY all key columns in order. |
| InitialSync.SessionAscends | internal/connector/sqlserver/initialsync.go:147-152 | For any number of key columns, the rows of a session ascend strictly in the order of the primary key. |
| InitialSync.RowStream.Next | internal/connector/sqlserver/initialsync.go:61-84 | The next row as a map of its columns, EOF at the end, an error where the connection is lost, and only a returned row advances. |
| InitialSync.RowOfCells | internal/connector/sqlserver/initialsync.go:79-82 | The row maps each column to its own cell; of two columns with one name the later wins. |
| InitialSync.RowOfKeys | internal/connector/sqlserver/initialsync.go:79-82 | The row has exactly the columns of the result set. |
| InitialSync.Consume | internal/connector/connector.go:57-72 | The loop documented for callers yields the rows of the result set in order, up to EOF, a lost connection or the caller's limit: a session of the theorems below, finished if EOF was reached. |
| InitialSync.ResumeExtends | internal/connector/sqlserver/initialsync.go:141-156 | With one key column, a resumed scan goes on exactly where the deliveries stopped: nothing again, nothing left out. |
| InitialSync.SkipsDelivered | internal/connector/sqlserver/initialsync.go:16-21 | A resumed scan avoids every delivered row if and only if the key has one column. |
| InitialSync.EveryRow | internal/connector/sqlserver/initialsync.go:137-157 | For any key and any interruptions, the deliveries are rows of the table, and all of them once a session has finished. |
| InitialSync.SingleKeyExactlyOnce | internal/connector/sqlserver/initialsync.go:137-157 | With one key column the deliveries ascend strictly, hold no row twice and no gap, and are the sorted table once a session has finished. |
| InitialSync.SyncCopiesTable | internal/connector/sqlserver/initialsync.go:141-156 | For any key, upserting the deliveries into an empty table leaves exactly the source table, once a session has finished. |

## Left out

- JSON encoding and `decode` (`internal/transport/messages.go:84`): messages on the wire are typed values; numbers inside `map[string]any` come back as floats, so a full value round trip would be false.
- WebSocket, TLS, the HTTP server, `Conn`, logging and wall-clock time: a connection is two queues of messages that may lose their tails; waiting is a number of seconds.
- The context of `Run` being cancelled in the middle of a wait: the schedule of attempts simply ends there.
- Goroutine scheduling inside one step: each step is atomic, and a handler's Apply and its reply are one step; a reply that is lost is a frame that vanishes.
- Handlers of two connections applying different batches at the same time: excluded by the assumption above.
- Other transactions on the target database: only the writer changes the tables.
- Constraints, foreign keys, type conversion, the 63-byte truncation of identifiers and NUL characters in Postgres: a statement may fail, and nothing more.
- Columns that the target table does not have, and defaults other than NULL: a row holds the columns written to it.
- `Change.Before` and the unused fields of messages: no modelled code reads them.
- The width of `BatchID` (uint64) and of Change Tracking versions (int64): numbers that are copied and compared, never computed with.
- The SQL Server query texts, `buildCTQuery` with its placeholder join, the capture-instance name, and the live lower bound of the CDC query: the source is an abstract log or history.
- The textual form of a cursor (hexadecimal LSN, decimal version) and the error for one that does not parse: a cursor is a number; `connErr` and error texts are not modelled either.
- `scanCTRows`: Change Tracking answers enter as changes.
- The step that fills in PK between the scanners and the writer: the scanners leave it unset on insert and update and put the whole row there on delete, which is not the contract the writer needs; the step is not in the repository, and StreamProperties.RunInCommitOrder holds for any.
- `primaryKeyColumns` and its order by column name, the error returns of `InitialSync` before the scan, and the `]` in a bracketed name: key columns are given.
- `Next` blocking for ever after an empty fetch: modelled as a call that returns only by cancellation; no liveness is stated.
- `internal/config`, DSN building, `validateConfig`, error classification, `retryWithBackoff`, `Probe`, the service wrapper and the command line: they would only add easy members.
- The pipeline engine, the cursor store, fan-in and the handover from initial sync to changes: described in the design, not in the code.
- ChangeTracking.RunConverges: rows are whole (all columns present), as the join with the table supplies them.
- Delivery.ProtocolShape: frames that an old handler sends on a connection the dialer has given up are not recorded.
- StreamProperties.RunFollowsSource: the rows of the log and of the table hold all columns, as CDC records them; an update that changes a key stands in the log as a delete and an insert.
