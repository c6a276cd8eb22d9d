# Verified model of the request protocol, the table layer, the sessions, the hash codec and the singleton

A Dafny 4.11 model of five parts of the system, with proofs of what they promise. `dafny verify dfyconfig.toml`
checks all of it.

**The timed request/response protocol.** `Protocol` is a labelled transition system over any number of requests.
Callbacks are cut where another callback can get in between: `await_suspend` into store, send and arm, the inbound
handler into look-up and set; `make_request` and `request` are two steps. `TimedMessage::set` is one step because the lock
of `m_response` covers its body. A timer first expires into the queue and then runs, so a cancel, by `set` or by
`~Awaiter`, cannot revoke a queued completion. The counter behind `next_id` is shared: a requester starts at any value of
it, and others may draw ids at any time, for which the peer may answer over the same session. The network loses, delays,
reorders and copies messages; the peer answers requests it has received through `make_response`, any number of times
within a budget (`fuel`), and may send garbled text and messages that are not responses. `ProtocolInvariant` holds the
inductive invariant, `ProtocolTheorems` what follows for reachable states, `ProtocolHistory` what the trace of a run says
about its requests, coroutines and replies, `ProtocolQuiescence` the measure and the final final states, `ProtocolRaces` the races that its runs include, `ProtocolRefinement`
the refinement of one-shot futures. `Requester` holds the classes with their mutable fields;
every method is proved against the protocol step it performs.

**Tables and transactions.** `Records` is the small part of the storage engine that is relied on: a sequence of records
strictly ascending by key. `Cursors` says where a cursor stands, including the flag that a deleted record leaves behind,
and what the cursor loops amount to. `Tables` holds the classes that erase, scan and write in place. `TableSpec` gives the
same calls on a finite map with a result mark, `Lookups` the questions a reader can ask. `Transactions` is a transition
system of readers, writers and `openTable` with lock, begin, calls, look-ups, commit or abort, and unlock as separate
steps; `WriterCalls` says what a sequence of calls makes of tables and mark, `Serializability` and `Snapshots` prove the
whole-run results, `OperationRuns` that every operation can live its whole life, and `Database` holds the classes.

**Sessions.** `SessionReads` covers reading and dispatch, `SessionWrites` the write strand, the shared buffer and the flat
buffer of the server side. `Transport` puts a client session under the protocol: requests go through the strand, replies
come in as bytes, are dispatched to the requester's handler and run from the task queue, while others use the same
session. `TransportRest` says where all of this comes to rest.

**Hash codec and singleton.** `Hash` reads and writes Base 16 (section 8 of RFC 4648) with array loops for every size.
`Singleton` is double-checked construction with one program counter per thread.

`Runs` defines runs once for all transition systems.

What the storage engine, the task queue, the strand and the timer do is taken from their use in the code: a cursor whose
record was deleted stands at the next record and its next `to_next` stays there, other open cursors are kept at their
records, an `insert` that meets its key leaves its cursor at that key, strand tasks run one at a time in order.

## Main results

- Every run of the protocol is finite, and a run in which nobody can take a step has resumed every request exactly once
  and left nothing pending, in flight or armed (`ProtocolQuiescence.RunBound`, `ProtocolQuiescence.MaximalRunResumesAll`,
  `ProtocolQuiescence.CanComplete`).
- A request is what the application asked for; it resumes at most one coroutine, once, and that is the one that awaited
  it; the coroutine receives the status and payload with which the peer answered this very request, or "timed out"
  (`ProtocolHistory.RequestsAreAsked`, `ProtocolHistory.AwaiterIsResumed`, `ProtocolHistory.ReplyIsDelivered`,
  `ProtocolTheorems.ResumedAtMostOnce`, `ProtocolTheorems.HandleStoredBeforeResponse`).
- The pending map is exact although the id counter is shared with others (`ProtocolTheorems.PendingMapExact`,
  `ProtocolTheorems.IdsStayUnique`).
- The requester refines a table of one-shot futures (`ProtocolRefinement.RequesterRefinesFutures`).
- Every run of the client session with its strand, bytes and task queue is a run of the protocol
  (`Transport.SessionsCarryTheProtocol`), and where nobody has anything left to do every request was resumed exactly once
  (`TransportRest.RestMeansDone`, `TransportRest.RestResumesAll`).
- Any interleaving of readers and writers leaves the store that the ok writers, run alone in lock order, leave
  (`Serializability.Serializable`). A writer of table calls contributes all of them if none threw, and nothing otherwise
  (`Serializability.WriterCommitsIfQuiet`, `Serializability.ThrowingIsDropped`).
- Every look-up of an open reader, and every iteration as a whole, reads the store committed when it began
  (`Snapshots.SnapshotReads`, `Snapshots.IterationIsSnapshot`).
- The range erase removes exactly the records from begin up to end, whenever it completes, and moves all other cursors
  along (`Tables.Table.EraseRange`); `find` agrees with `get`, `lowerBound` and the least match (`Cursors.FindReturnsLeast`).
- Table calls are calls on a map with a sticky mark (`Tables.Table.Insert`, `TableSpec.FailedCallsVanish`,
  `TableSpec.OkMeansNothingThrown`).
- Each message is posted once to exactly the handlers registered when it was read (`SessionReads.DispatchExactly`); a
  closed session starts no more reads (`SessionReads.CloseStopsReading`); frames are an order-preserving subsequence of
  the sends (`SessionWrites.WireIsSubsequence`).
- The hash codec round-trips for every size (`Hash.PrintThenParse`, `Hash.ParseThenPrint`); at most one object is
  constructed and every caller gets it (`Singleton.OneInstance`).

## Results that are conditions

- The range erase completes exactly when its end is the end marker or a finished cursor, or when start and end both stand
  at a record and the end is not before the start. Otherwise a cursor without a record is read, or the loop runs off the
  table and the increment throws, and the exception leaves a `noexcept` function (`Cursors.Range`,
  `Tables.Table.EraseRange`).
- `find` up to a cursor that lies before the start never meets it. It runs like `find` up to the end marker, except that
  it fails, and marks the transaction, exactly where that one would come to the end: if and only if no record from the
  start on satisfies the predicate or makes it throw (`Cursors.BoundBeforeStart`).
- Searching on from a finished cursor does not always give a finished cursor. After a failing `insert` it does if and only
  if the engine failed for reasons of its own; if the key was present, the new cursor stands at that key
  (`Tables.Table.FindAfterInsert`). After a `find` from an unfinished cursor that threw or came to the end it does if and only if that search had no
  record under it any more, so not where the predicate threw at a record (`Tables.Table.FindAfterFind`). After an
  unsuccessful `get` or `lowerBound` it always does (`Tables.Table.FindAfterMiss`), and likewise where the increment, a
  failed `update` or `upsert`, or `begin` on an empty table gave the finished cursor: no record is then under it, and none
  gets there by later insertions and deletions (`Cursors.EofStays`).
- Ids collide exactly when the calls of `next_id` are a multiple of 2^64 apart; `request` with an id that is still pending
  returns the old timed message (`Messages.IdsCollide`, `Requester.Requester.Request`). The protocol is proved for a
  requester in whose life at most 2^64 ids are drawn, by whomever.

## Model

| member | source | states |
|---|---|---|
| `Messages.IdsAreABijection` | include/message/Message.hpp:30-33 | among the first 2^64 calls every 64-bit id is handed out exactly once, by the call that `CallOf` names |
| `Messages.IdsCollide` | include/message/Message.hpp:30-33 | two calls give the same id if and only if they are a multiple of 2^64 apart |
| `Messages.IdCounter.NextId` | include/message/Message.hpp:30-33 | the counter is incremented before it is returned and wraps |
| `ProtocolInvariant.StepKeepsInv` | source/message/Requester.cpp:14-26 | every step keeps: at most one resumption per request and never through a null handle, the pending map exact, every message in flight traceable to a request that was sent |
| `ProtocolInvariant.RunKeepsInv` | source/message/Requester.cpp:57-104 | the invariant holds after any run |
| `ProtocolInvariant.ReachableInv` | source/message/Requester.cpp:57-104 | and so in every state reachable from an idle requester |
| `ProtocolInvariant.SetEntryOk` | source/message/Requester.cpp:58-68 | a set on a dispatched entry with an answer of the peer keeps the entry's invariant, whatever came before |
| `ProtocolInvariant.EntryStepsOk` | source/message/Requester.cpp:91-104 | each part of `await_suspend`, the expiry and the completion of the timer keep the entry's invariant |
| `ProtocolInvariant.CompleteKeepsPending` | source/message/Requester.cpp:63 | erasing the completed id keeps the pending map exact for all other requests |
| `ProtocolTheorems.ResumedAtMostOnce` | source/message/Requester.cpp:58-68 | in every reachable state a request was resumed once if it holds a response and never otherwise, through the handle its own await stored and with that response |
| `ProtocolTheorems.HandleStoredBeforeResponse` | source/message/Requester.cpp:91-93 | whenever a response is on the wire, posted or being handled, the handle of every request with its id is already stored, and there is such a request unless somebody else drew the id |
| `ProtocolTheorems.NoNullHandleResumed` | source/message/Requester.cpp:67 | whenever a timer has been armed its request's handle is stored, and no null handle was ever resumed |
| `ProtocolTheorems.IdsStayUnique` | include/message/Message.hpp:30-33 | however others draw from the counter in between, two requests never share an id, none has an id of somebody else, and the next id is new |
| `ProtocolTheorems.PendingMapExact` | source/message/Requester.cpp:35-39 | `emplace` never met an existing key; an id is pending if and only if some request with it has no response, and it leads to the entry of that id |
| `ProtocolTheorems.WhatCompletes` | source/message/Requester.cpp:14-26 | only a set on the entry itself or its own timer, not aborted, gives a request its response |
| `ProtocolTheorems.CompletionErasesOwnKey` | source/message/Requester.cpp:63 | completing a request removes its own id from the pending map and no other |
| `ProtocolTheorems.Correlation` | source/message/Requester.cpp:106-109 | a resumed coroutine gets a response with its request's id and action that the peer built, or the "timed out" response with ok false |
| `ProtocolTheorems.TimerDecides` | source/message/Requester.cpp:95-102 | a timer completion decides a request exactly if it was not aborted and came first; then the coroutine gets "timed out"; otherwise nothing changes |
| `ProtocolTheorems.ResponseDecides` | source/message/Requester.cpp:58-68 | a response decides a request exactly if it came first; then the stored coroutine is resumed with it and no wait is left running; otherwise the entry does not change at all |
| `ProtocolTheorems.FirstResponseWins` | source/message/Requester.cpp:60-62 | after the first response no later run changes the response or the resumptions |
| `ProtocolTheorems.DisposeStopsTimer` | source/message/Requester.cpp:80-83 | `~Awaiter` turns a running wait into an aborted completion and changes nothing else of the request |
| `ProtocolHistory.AwaiterIsResumed` | source/message/Requester.cpp:91-92 | over any run, an entry has exactly the handle that its own await stored, and every resumption of it goes to that coroutine |
| `ProtocolHistory.RequestsAreAsked` | include/message/Message.hpp:35-53 | over any run, every entry's message, and so every request on its way to or at the peer, carries action, data and drawn id of some `make_request` of the application |
| `ProtocolHistory.ReplyIsDelivered` | include/message/Message.hpp:55-74 | over any run, what a coroutine receives has the status and payload that the peer gave in answer to this very request, or is "timed out" with empty data |
| `ProtocolHistory.IssuedCounts` | include/message/Message.hpp:30-33 | the counter has advanced by exactly the draws in the trace |
| `ProtocolTheorems.StartsAnywhere` | include/message/Message.hpp:30-33 | a requester may start at any value of the counter, with all earlier ids in other hands and all remaining ones still to be drawn |
| `ProtocolRaces.RequestIsServed` | source/message/Requester.cpp:14-26 | from every state of the invariant, a waiting request on its way can be received, answered, dispatched and set, and its coroutine is then resumed with the peer's status and payload |
| `ProtocolRaces.CopiesRace` | source/message/Requester.cpp:20-24 | a reply can be duplicated so that two handlers have looked up the same entry before either has called `set` |
| `ProtocolRaces.TimerRaces` | source/message/Requester.cpp:64-66 | a timer can have expired into the queue when the response is set; its completion still runs, not aborted |
| `ProtocolRaces.ResponseBeforeArm` | source/message/Requester.cpp:93-95 | a response can be set before the timer is armed, and the timer is armed all the same |
| `ProtocolRaces.RequestsAreCopied` | source/message/Requester.cpp:93 | a request can reach the peer more than once |
| `ProtocolRaces.PeerRepeats` | include/message/Message.hpp:55-74 | the peer can answer a request it has received again at any time |
| `ProtocolRaces.ForeignReplyIsDropped` | source/message/Requester.cpp:20-23 | a response to somebody else's id comes in, is looked up, and leaves nothing behind |
| `ProtocolQuiescence.StepDecreases` | source/message/Requester.cpp:14-104 | every step, of whatever party, makes the measure over messages, timers and handlers smaller |
| `ProtocolQuiescence.RunsAreFinite` | source/message/Requester.cpp:14-104 | a run is at most as long as the measure it started with |
| `ProtocolQuiescence.RunBound` | source/message/Requester.cpp:14-104 | with n requests, f ids drawn by others and m copies or unsolicited messages a run has at most 13n + f + 6m steps |
| `ProtocolQuiescence.QuiescentMeansDone` | source/message/Requester.cpp:58-68 | in every state of the invariant where nothing has to happen any more, nothing is pending, in flight or armed, every request made was issued, resumed exactly once, and its awaiter is gone |
| `ProtocolQuiescence.MaximalRunResumesAll` | source/message/Requester.cpp:58-104 | a run in which no step of anybody is left has made all its requests, resumed each exactly once and left nothing pending |
| `ProtocolQuiescence.CanComplete` | source/message/Requester.cpp:58-104 | every state of the invariant can be run, by obligatory steps alone, to a state where every request was resumed exactly once and nothing is pending or in flight |
| `ProtocolQuiescence.RequestsConserved` | source/message/Requester.cpp:35-39 | no request is lost: over any run the requests still to be made, made, and issued add up to the same |
| `ProtocolRefinement.StepRefines` | source/message/Requester.cpp:14-68 | every step is a permitted step of a table of one-shot futures, or none |
| `ProtocolRefinement.RunRefines` | source/message/Requester.cpp:14-68 | every run maps to a permitted run of the futures and ends in the same futures |
| `ProtocolRefinement.RequesterRefinesFutures` | source/message/Requester.cpp:14-68 | the same from an idle requester and an empty table of futures |
| `ProtocolRefinement.StutterIsInvisible` | source/message/Requester.cpp:60-62 | a step that maps to no abstract step changes no future, no resumption and no pending id |
| `ProtocolRefinement.UnwantedIsDropped` | source/message/Requester.cpp:15-25 | the look-up leaves no trace if and only if the text is garbled, not a response, or its id is not pending |
| `ProtocolRefinement.LateIsStutter` | source/message/Requester.cpp:60-62 | a set step or timer completion maps to no abstract step exactly when the request already has its response |
| `Requester.TimedMessage.Set` | source/message/Requester.cpp:58-68 | the object becomes what `SetEntry` says and the shared map loses the message's id on the first response only |
| `Requester.TimedMessage.AwaitSuspend` | source/message/Requester.cpp:91-104 | the handle of the awaiting coroutine is stored, the message sent once, the timer armed; response and resumptions are untouched |
| `Requester.TimedMessage.OnTimer` | source/message/Requester.cpp:95-102 | an aborted completion only ends the wait; another one sets "timed out" unless there is a response, and erases its own id |
| `Requester.Requester.Request` | source/message/Requester.cpp:35-39 | a new id gets a new entry; an id that is pending gives back the entry that is there and changes nothing |
| `Requester.Requester.Make` | include/message/Message.hpp:35-53 | the request has the action and data asked for and the next id, and the protocol holds it as made, whatever the process has drawn before |
| `Requester.Requester.DrawElsewhere` | include/message/Message.hpp:88-96 | somebody else draws from the same counter: the requester's objects still represent the state, in which the id is foreign |
| `Requester.Requester.Issue` | source/message/Requester.cpp:35-39 | with a request that was made the objects follow the issue step |
| `Requester.Requester.Find` | source/message/Requester.cpp:16-23 | finds an entry if and only if the text is a response whose id is pending, and then that entry |
| `Requester.Requester.Complete` | source/message/Requester.cpp:24 | all objects and the map follow the set step; no other timed message changes |
| `Requester.Requester.RunTimer` | source/message/Requester.cpp:95-102 | all objects and the map follow the timer step |
| `Requester.Requester.Store` | source/message/Requester.cpp:92 | the coroutine that awaits is the handle stored, and all objects follow the store step |
| `Requester.Requester.Send` | source/message/Requester.cpp:93 | all objects follow the send step and the session sends that request |
| `Requester.Requester.Arm` | source/message/Requester.cpp:94-95 | all objects follow the arm step |
| `Requester.Requester.AwaitResume` | source/message/Requester.cpp:107-109 | what `co_await` yields is the message of the one resumption: a response with the request's own id and action, built by the peer, or "timed out" with ok false |
| `Requester.Requester.Dispose` | source/message/Requester.cpp:80-83 | a wait that is running becomes an aborted completion, and all objects follow the disposal step |
| `Requester.Requester.OnMessage` | source/message/Requester.cpp:14-26 | uninterrupted, the inbound handler is look-up and set, or nothing |
| `Records.LessIsByteOrder` | include/database/Database.hpp:46 | keys are ordered as byte strings: the first difference decides, and a prefix comes before its extensions |
| `Records.SeekSplits` | include/database/Table.hpp:188-192 | the lower bound splits a sorted table: all keys before it are less, none after it is |
| `Records.InsertContents` | include/database/Table.hpp:204-217 | inserting keeps the table sorted and adds exactly one entry to its map |
| `Records.UpdateContents` | include/database/Table.hpp:242-255 | updating keeps the table sorted and changes exactly one entry |
| `Records.CutContents` | include/database/Table.hpp:95-100 | removing a range of positions keeps the table sorted and removes exactly the keys in the range |
| `Records.RemoveContents` | include/database/Table.hpp:87-93 | removing one position removes exactly its key |
| `TableSpec.MarkIsSticky` | include/database/Table.hpp:210-214 | no sequence of table calls clears a mark |
| `TableSpec.OkMeansNothingThrown` | include/database/Table.hpp:204-255 | a sequence of table calls leaves the result ok if and only if none of them threw |
| `TableSpec.FailedCallsVanish` | include/database/Table.hpp:204-255 | the records after any sequence of calls are those after its succeeding calls alone |
| `Cursors.ErasePreservesOthers` | include/database/Table.hpp:87-93 | a cursor elsewhere stays at its record when a record is erased |
| `Cursors.InsertPreservesOthers` | include/database/Table.hpp:204-217 | and when one is inserted |
| `Cursors.CutMovesOthers` | include/database/Table.hpp:95-100 | a range erase leaves every other cursor at its record, and one whose record goes before the first record behind the range |
| `Cursors.EofStays` | include/database/ConstCursor.hpp:33-38 | a cursor of the engine without a record gets none by insertions and deletions |
| `Cursors.EraseThenNext` | include/database/Table.hpp:97-99 | erasing and incrementing lands on the successor of the erased record: nothing is skipped |
| `Cursors.ScanStopsAtFirst` | include/database/Table.hpp:131-148 | the scan stops at a position if and only if it is the first that satisfies the predicate or is the end of the range |
| `Cursors.ScanFailsAtFirst` | include/database/Table.hpp:141-145 | the scan fails at a position if and only if the predicate throws there first, or it is the end and a bound was never met |
| `Cursors.BoundBeforeStart` | include/database/Table.hpp:131-148 | up to a cursor before the start the scan is the unbounded one, but fails where that comes to the end: exactly if the predicate says no to every record from the start on |
| `Cursors.FindReturnsLeast` | include/database/Table.hpp:131-148 | searching the whole table returns the least key that satisfies the predicate, and the end if there is none |
| `Cursors.FindAgreesWithGet` | include/database/Table.hpp:263-267 | with "key equals k" it finds what `get` finds |
| `Cursors.FindAgreesWithLowerBound` | include/database/Table.hpp:188-192 | with "key at least k" it finds what `lowerBound` finds |
| `Cursors.KeysBetweenBounds` | include/database/Table.hpp:95-100 | between two lower bounds the range erase removes exactly the keys at least lo and less than hi |
| `Tables.Cursor.Equal` | include/database/ConstCursor.hpp:44-54 | comparing by key and value is comparing by position, a set end flag decides alone, and a cursor without a record throws |
| `Tables.Cursor.Current` | include/database/ConstCursor.hpp:56-84 | gives the record under the cursor, or throws when finished or without a record |
| `Tables.Cursor.Next` | include/database/ConstCursor.hpp:86-99 | throws exactly on a finished cursor, otherwise moves on and renews the end flag |
| `Tables.Cursor.SetRawValue` | include/database/Cursor.hpp:27-41 | is the map-level update of exactly the key under the cursor, or throws and changes nothing |
| `Tables.Table.Begin` | include/database/Table.hpp:71-75 | stands at the first record, finished if there is none |
| `Tables.Table.Empty` | include/database/Table.hpp:83-85 | true if and only if the table has no key |
| `Tables.Table.Get` | include/database/Table.hpp:263-267 | finished if and only if the key is absent, otherwise at the key with its value |
| `Tables.Table.LowerBound` | include/database/Table.hpp:188-192 | finished if and only if all keys are less, otherwise at the least key that is not |
| `Tables.Table.Insert` | include/database/Table.hpp:204-217 | records and mark become what the map-level insert says; a failure gives a finished cursor whose engine cursor stands at the present key, success a cursor at the new record, and all open cursors follow their records |
| `Tables.Table.Update` | include/database/Table.hpp:242-255 | records and mark become what the map-level update says; a failure gives a finished cursor |
| `Tables.Table.Upsert` | include/database/Table.hpp:223-236 | records and mark become what the map-level upsert says, and all open cursors follow their records |
| `Tables.Table.EraseAt` | include/database/Table.hpp:87-93 | nothing on a finished cursor; otherwise the record under it goes and every open cursor is kept up to date |
| `Tables.Table.EraseAndStep` | include/database/Table.hpp:97-99 | one round of the erase loop leaves the cursor at the successor of the erased record |
| `Tables.Table.EraseRange` | include/database/Table.hpp:95-100 | terminates; completes if and only if the end can be met, and then it is the map-level erase of exactly the keys from begin up to end, with every other cursor moved along |
| `Tables.EraseWork` | include/database/Table.hpp:95-100 | removing those positions is erasing their keys on the map and touches no mark |
| `Tables.Table.Clear` | include/database/Table.hpp:77-81 | always completes, leaves the table empty, and is the map-level erase of all keys |
| `Tables.Table.EraseKey` | include/database/Table.hpp:102-110 | erases the key if it is there and nothing else; every open cursor is kept up to date |
| `Tables.Table.Find` | include/database/Table.hpp:131-148 | returns where the scan stopped without touching the mark; a scan that throws is the failing call of the map level, which marks the transaction, and gives a finished cursor whose engine cursor stands where the scan had come |
| `Tables.Table.FindAfterInsert` | include/database/Table.hpp:204-217 | searching on from a failed insert gives a finished cursor if and only if the engine failed by itself; otherwise one at the key that was present |
| `Tables.Table.FindAfterFind` | include/database/Table.hpp:131-148 | searching on from a search that began at an unfinished cursor and threw or came to the end gives a finished cursor if and only if no record was under it any more |
| `Tables.Table.FindAfterMiss` | include/database/Table.hpp:257-267 | searching on from an unsuccessful `get` or `lowerBound` always gives a finished cursor |
| `Transactions.CallsAreLocal` | include/database/Database.hpp:47-53 | a call touches its own table only; `create_map` adds an empty table or keeps the one that is there |
| `Transactions.StepKeepsInv` | source/database/Reader.cpp:28-68 | every step keeps the lock discipline and that a live view is the committed store plus the operation's own calls |
| `Transactions.RunInv` | source/database/Reader.cpp:28-68 | so does every run |
| `Transactions.CommitsAlone` | source/database/Writer.cpp:11-16 | while a writer is alive every other operation has released its lock |
| `Transactions.WhoMayLock` | source/database/Writer.cpp:11-16 | a reader may lock exactly while no writer is alive, a writer exactly while nobody is |
| `Transactions.NobodyIsStuck` | source/database/Reader.cpp:28-68 | an operation that has its lock can always take its next step, and comes nearer to its end by it |
| `OperationRuns.OperationsRun` | source/database/Reader.cpp:21-68 | whenever its lock is free, a reader or writer with any permitted calls can lock, begin, call, close and unlock; its calls are committed if it wrote and ended ok, and the lock is as before |
| `WriterCalls.OneTableIsExec` | include/database/Table.hpp:204-255 | on one table, a transaction gives that table and that mark exactly as the table calls alone |
| `WriterCalls.TablesAreIndependent` | include/database/Table.hpp:204-255 | with calls on several tables mixed, each table becomes what its own calls make of it |
| `WriterCalls.LastDecisionCounts` | source/database/Reader.cpp:71-74 | the result of a transaction is what the last `operator<<` set or the last exception left, and ok if there was neither |
| `WriterCalls.OkMeansAllQuiet` | include/database/Table.hpp:204-255 | a transaction of calls on any number of tables is ok if and only if none of them threw |
| `WriterCalls.SpoiledFails` | include/database/Table.hpp:210-214 | a call that threw, with no later `operator<<`, makes the transaction fail whatever else it did |
| `Serializability.StepCommits` | source/database/Reader.cpp:29-36 | the committed store changes only where a writer finishes with an ok result, and becomes its view |
| `Serializability.Serializable` | source/database/Reader.cpp:28-59 | after any interleaving the committed store is the writers run alone in lock order, those counting that finished with an ok result |
| `Serializability.MarkedIsDropped` | source/database/Reader.cpp:71-74 | a marked writer contributes nothing unless a later `operator<<` resets it |
| `Serializability.WriterCommitsIfQuiet` | source/database/Reader.cpp:28-38 | a writer of table calls contributes all of them if none threw and nothing otherwise |
| `Serializability.ThrowingIsDropped` | source/database/Reader.cpp:28-38 | a writer with a call that threw and no later `operator<<` contributes nothing |
| `Serializability.LockDiscipline` | source/database/Reader.cpp:21-68 | always one writer and no reader, or only readers; live transactions hold the lock; an operation that was destroyed ended its transaction once, and a released one unlocked once, afterwards, and as the holder |
| `Snapshots.SnapshotReads` | source/database/Reader.cpp:21-26 | every look-up of a reader is answered as the store committed at its begin would answer it, and that is still the committed store, over any run of other operations |
| `Snapshots.IterationIsSnapshot` | include/database/ConstCursor.hpp:86-99 | an iteration of a reader, interleaved with anything, lists the sorted records committed at its begin without a gap from where the cursor was opened; from `begin` to the end it lists the whole table |
| `Snapshots.LookIsAnswered` | include/database/Table.hpp:257-261 | every question about a table that an open reader sees has exactly one answer |
| `Lookups.LowerBoundRecord` | include/database/Table.hpp:194-198 | the least key not below k is the record the engine seeks, and the one `find` stops at |
| `Lookups.GetRecord` | include/database/Table.hpp:257-261 | `get` gives the record that `find` finds, or none |
| `Lookups.FirstRecord` | include/database/Table.hpp:61-65 | `begin` gives the record at position 0, none in an empty table |
| `Lookups.NextRecord` | include/database/ConstCursor.hpp:86-99 | the least key after the one under the cursor is the record at the next position |
| `Database.Database.OpenTable` | include/database/Database.hpp:47-53 | creates the table, and the explicit commit followed by the destructor ends the transaction and unlocks once |
| `Database.Operation.Make` | source/database/Writer.cpp:11-16 | takes the shared or exclusive lock, then starts the transaction on the committed store |
| `Database.Operation.Unlock` | source/database/Reader.cpp:62-68 | releases the lock the operation holds |
| `Database.Operation.Commit` | source/database/Reader.cpp:41-49 | commits and unlocks once; does nothing when no longer open |
| `Database.Operation.Abort` | source/database/Reader.cpp:52-59 | drops the view and unlocks; does nothing when no longer open |
| `Database.Operation.Close` | source/database/Reader.cpp:29-38 | the result mark decides between commit and abort; nothing happens twice after an explicit commit |
| `Database.WriteTransaction` | source/database/Reader.cpp:28-59 | the calls of a whole write transaction count all together if none threw, and not at all if one did without a later `operator<<`; the lock is free again |
| `SessionReads.ReadsBounded` | source/websocket/client/Session.cpp:69-91 | never more reads outstanding than the session was opened |
| `SessionReads.AlwaysReading` | source/websocket/client/Session.cpp:106-114 | while the stream is neither closed nor dropped there is exactly one read per opening, also after errors |
| `SessionReads.ReadsExact` | source/websocket/client/Session.cpp:69-114 | the outstanding reads are exactly those started, by an opening or after a read of an open stream that did not end in its close, less those that ended |
| `SessionReads.CloseStopsReading` | source/websocket/client/Session.cpp:58-72 | after a close or a drop the stream is not open until the next opening and no read is started: the outstanding ones run out |
| `SessionReads.WhatMayHappen` | source/websocket/client/Session.cpp:69-114 | bytes and ends of reads, of every kind, exactly while more reads were started than have ended; a registration exactly under an unused id; everything else at any time |
| `SessionReads.BufferIsMessage` | source/websocket/server/Session.cpp:148-170 | after a single opening the shared read buffer holds exactly the bytes of the message being read |
| `SessionReads.HandlesAreRegistered` | source/websocket/client/Session.cpp:93-104 | the map holds exactly the handlers that were set and not removed since |
| `SessionReads.DispatchExactly` | source/websocket/client/Session.cpp:116-126 | a message is posted once to exactly the handlers registered when it was read, in the order of their ids, with the bytes that arrived |
| `SessionReads.PostedStays` | source/websocket/server/Session.cpp:98-104 | what was posted is not changed by any later read, `setHandle` or `unsetHandle` |
| `SessionReads.Reader.StartReading` | source/websocket/client/Session.cpp:69-91 | empties the buffer and starts a read if the stream is open, otherwise does nothing |
| `SessionReads.Reader.Connected` | source/websocket/client/Session.cpp:49-56 | a successful opening starts the first read |
| `SessionReads.Reader.SetHandle` | source/websocket/client/Session.cpp:93-99 | inserts the handler by its id, in whatever order the ids that were drawn arrive |
| `SessionReads.Reader.UnsetHandle` | source/websocket/client/Session.cpp:101-104 | removes the handler with the id and tells whether there was one |
| `SessionReads.Reader.Close` | source/websocket/client/Session.cpp:58-67 | the stream is not open afterwards; the client also drops all its handlers |
| `SessionReads.Reader.OnRead` | source/websocket/client/Session.cpp:106-127 | the loop over the snapshot posts one task per handler; the next read is started exactly if the stream is open and the read did not end in its close |
| `SessionWrites.FramesAreSends` | source/websocket/client/Session.cpp:129-144 | written, running and waiting data are all sends in their order, and the buffer of the running task holds its own send |
| `SessionWrites.NothingFailedNothingLost` | source/websocket/client/Session.cpp:129-144 | when the strand is idle and no write failed the wire is exactly the sends |
| `SessionWrites.WireIsSubsequence` | source/websocket/server/Session.cpp:120-138 | whatever fails, the frames are an order-preserving subsequence of the sends |
| `SessionWrites.Drains` | source/websocket/client/Session.cpp:129-144 | from any state the strand can work off all that waits, and with successful writes all of it is on the wire in order |
| `SessionWrites.WhatMayHappen` | source/websocket/client/Session.cpp:129-144 | a task starts exactly when all started ones have returned and one is left, and can end with either outcome; a send is possible at any time |
| `SessionWrites.FlatBuffer.Prepare` | source/websocket/server/Session.cpp:125 | makes room behind the readable bytes and keeps them, moving them if the memory is too small |
| `SessionWrites.FlatBuffer.Commit` | source/websocket/server/Session.cpp:126 | appends the prepared bytes to the readable ones |
| `SessionWrites.ClientWriter.Task` | source/websocket/client/Session.cpp:132-143 | the client's task is the fill and the write of the strand model |
| `SessionWrites.ServerWriter.Refill` | source/websocket/server/Session.cpp:124-126 | consume, prepare, copy and commit leave exactly the new data |
| `SessionWrites.ServerWriter.Task` | source/websocket/server/Session.cpp:123-137 | the server's task is the fill and the write of the strand model |
| `Transport.SessionsCarryTheProtocol` | source/websocket/client/Session.cpp:69-144 | every run of a client session with its strand, its reads and its task queue is a run of the protocol, by the steps it stands for, and ends in a reachable state of it |
| `Transport.StepRefines` | source/websocket/client/Session.cpp:69-144 | each step of strand, network, read loop, dispatch or task queue is the send, loss, receipt, post or look-up of the protocol, or nothing |
| `Transport.StepKeepsInv` | source/websocket/client/Session.cpp:69-144 | every step keeps the buffers right, the frames attributable and the protocol's own invariant |
| `Transport.PostedReplyIsAwaited` | source/message/Requester.cpp:14-26 | when the requester's handler is about to run on a response, the coroutine waiting for its id is stored, or the id is somebody else's |
| `TransportRest.RestResumesAll` | source/message/Requester.cpp:58-104 | whatever became of the session, where nobody has anything left to do every request was resumed exactly once |
| `TransportRest.RestMeansDone` | source/websocket/client/Session.cpp:69-144 | if the session is still read, then also nothing is pending, in the strand, on its way, arriving, or posted and not run |
| `TransportRest.SessionIsReady` | source/message/Requester.cpp:7-13 | a session that was opened once and is not in the midst of a message is fit for a new requester, whatever others did over it before |
| `TransportRest.WritesMayFail` | source/websocket/client/Session.cpp:132-143 | every running write can fail, and then its request is lost to the protocol and nothing reaches the wire |
| `TransportRest.ReadsMayFail` | source/websocket/client/Session.cpp:77-90 | every read can fail or end in the close of the stream: the message is lost, and only an open stream is read on after a failure |
| `TransportRest.OthersMaySend` | source/websocket/client/Session.cpp:129-144 | others can send under their own ids at any time: it queues behind what is there and the protocol does not change |
| `Hash.ParseAfterPrint` | source/hash/Hash.cpp:76-84 | the printed form of a hash spells that hash, for every size |
| `Hash.PrintAfterParse` | source/hash/Hash.cpp:59-84 | printing what a string spells gives the string in lower case |
| `Hash.SpellsOne` | source/hash/Hash.cpp:59-73 | a string spells at most one hash |
| `Hash.SpellsTheNumber` | source/hash/Hash.cpp:65-70 | the digits in base 16 and the bytes in base 256 are the same number: high half first, first byte most significant |
| `Hash.DigitIs` | source/hash/Hash.cpp:31-48 | a character has the value v if and only if it is the digit v of Base 16, in lower or upper case |
| `Hash.CharFromHex` | source/hash/Hash.cpp:31-48 | succeeds exactly on the digits of either case and leaves the target alone otherwise |
| `Hash.Parse` | source/hash/Hash.cpp:59-73 | succeeds if and only if the string has 2 * size hexadecimal digits, with the bytes they spell; a wrong length is reported first |
| `Hash.PrintByte` | source/hash/Hash.cpp:81 | writes two digits and a terminator and nothing else |
| `Hash.Print` | source/hash/Hash.cpp:76-84 | the text is the hexadecimal form; all terminators are overwritten but the one at index 2 * size |
| `Hash.PrintThenParse` | source/hash/Hash.cpp:59-84 | `parse(string(h))` is h |
| `Hash.ParseThenPrint` | source/hash/Hash.cpp:59-84 | `string(parse(s))` is s in lower case, and fails exactly where `parse` does |
| `Singleton.StepKeepsInv` | include/util/Singleton.hpp:24-39 | every step of every thread keeps: a null pointer with an object built means its builder still holds the mutex |
| `Singleton.OneInstance` | include/util/Singleton.hpp:24-39 | for any number of threads at most one object is constructed and every call returns that object, never null |
| `Singleton.InstanceStays` | include/util/Singleton.hpp:33-35 | once set, the pointer never changes and nothing more is constructed |
| `Singleton.SomebodyGoesOn` | include/util/Singleton.hpp:24-39 | no deadlock: a thread in a call, or the holder of the mutex it waits for, can take a step that brings it nearer to its end |
| `Singleton.Statics.Instance` | include/util/Singleton.hpp:24-39 | an uninterrupted call is a run of the transition system; it constructs exactly if the pointer was null, and returns the stored pointer |

## Left out

- The byte and JSON formats: tables work on raw values; the protocol works on messages that either parse or do not, and
  `Transport` takes a codec whose decoding inverts its encoding.
- Object lifetimes, coroutine frames and data races on the pending map: each modelled step is atomic. `~Requester` appears
  only as the removal of its handler, `~TimedMessage` is not modelled.
- A request that is awaited twice, and messages to `request` that `make_request` did not build: the transition system awaits
  every request once; only `Requester.Requester.Request` covers a pending id.
- The server's session at the other end: in `Transport` the peer takes and sends whole frames. A connection that breaks
  leaves frames undelivered for ever; a bound on the length of a run is stated for the protocol and not for `Transport`.
- A session that is opened twice has two reads on one buffer: `SessionReads.ReadsExact` covers their number, the contents of the
  buffer are stated for a single opening.
- The overloads on typed values: a value that fails to deserialize is a predicate that throws. `Txn` stands for a reader or
  a writer, whose `begin`, `get` and `lowerBound` are the same code.
- The read-side `find`, `Cursor::setValue` and `operator--`; they add nothing to the loops that are modelled.
- Lock acquisition that blocks: a constructor is a step that is enabled when the mutex is free; fairness is not modelled.
- Exceptions of the storage engine in places without a `catch`, such as commit and opening a cursor for reading. A fault
  inside `insert`, `update` or `upsert` is taken to leave its cursor without a record.
- Exception texts: "bad cursor", "bad current", "key exists" and "not found" stand for the full messages.
- The cursor level works on one table of a transaction; several tables appear in `Transactions`.
- Handler ids do not wrap around: a `size_t` counter is taken as unbounded, each id drawn once.
- TLS and WebSocket handshakes, accept loops, the thread pool, configuration, logging, the applications and launch scripts.
