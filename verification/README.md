# Verified model of the media service's core, and of the order service's key store

This project models, in Dafny, the parts of the media service (C) in which state is carried across
callbacks and threads, and the key store of the order service (Rust). It proves properties over all
inputs, all ways to cut a stream into pieces, all runs, or all reachable states.

`dafny verify dfyconfig.toml` checks everything.

## How the model is organised

**Multipart parser.** `MultipartAutomaton` says what one byte does (`Step`) and what a stream does
(`Feed`). `MultipartParser.Parser` is the resumable parser with its state, index and lookbehind buffer
updated in place, its `mark`, and the loop that re-reads a byte after a failed match; one method per group
of cases. A callback's wish to stop is a function `veto` of the callbacks made so far. Traces are compared
by `Norm`, which joins adjacent data callbacks; the event `NameDropped` is no callback but marks where a field
name ends without a value, and a comparison can leave out what was reported of that name. `MultipartMatching` compares the matcher with naive search,
`MultipartRoundTrip` renders parts as section 5.1.1 of RFC 2046 prescribes and parses them back,
`MultipartGrammar` gives the entities as a grammar without states and `MultipartLanguage` proves that the
automaton accepts exactly their beginnings, `MultipartCounting` counts the bytes released and held, and `MultipartNames` and `MultipartChunks` settle
when the callbacks depend on how the stream is cut.

**Upload driver.** `UploadPart.Upload` is the loop that feeds the parser 128-byte slices and writes part
data to storage, with its read and write indices, size, flags and write buffer. `UploadReading` says what it
makes of any entity, slice by slice, and compares that with the automaton's verdict; `UploadPassedOver` shows
where the two part. `UploadOfOnePart` applies the driver to well-formed entities and adds the quota estimate.

**Database layer.** `LinkedNodes`, `ConnectionPool` and `QueryBatch` are the doubly linked lists, the pool and
the batching of pending queries, on the heap. `DbProtocol` is the connection handler as a state machine: a
step is one `case` of the handler's switch, the write of the waiting state after a poll was armed, one atomic
access of a thread on its way to the handler, one poll or timer event, or one callback to the application.
Only a thread that has let a query in, or that closes the connection, goes to the handler.
What the client library, the operating system and the scheduler do is chosen by the step. `DbHistory` says
what a query may be told, as an automaton and as a grammar; `DbLedger` and `DbSafety` hold the invariant;
`DbTheorems`, `DbExactServer`, `DbFailures` and `DbRace` draw the conclusions; `DbHandler` is the handler's own
loop. What reaches the queries is stated on what the client library reports. `DbScript` turns a list of result
sets into the calls that report it, `DbDelivery` reads the calls off a run, `DbConversation` follows them step by
step, `DbResultSets` and `DbShares` say what the batch and each of its queries have been told at the end, and
`DbProgress` that every such list can be delivered. `DbOutcomes` does the same for the code with which any one
call ends, errors included; `DbStranded` is about queries that nobody attends to.

**The rest.** `Base64`, `Base64Bits`, `Base64Codec` and `Base64Decoder` are the encoder and decoder, and
`Base64Stream` reads both as changes of the base of a number;
`UploadLifecycle` the request, chunk and file tables; `AccessControl`, `AccessSync` and `AccessVerify` the
synchronisation of access lists; `Admission` the connection counter; `Mkdir` the recursive creation of
directories; `KeySets`, `Keystore` and `KeystoreHistory` the key store of the order service.

## Properties that fail, and exactly when

- The callbacks of the multipart parser depend on the pieces exactly when a CR arrives in the middle of a
  field name, and then only in what is reported of that name: `SplitAgrees` proves both, `FindCut` and `CutShows`
  that they then do, and `CutHappens` gives such a stream.
- The upload driver repeats an empty read for ever exactly when no byte follows the closing delimiter of a
  well-formed entity (`StorePart`).
- A refused byte that is the last of a slice is taken for success. `Upload.Run` ends as `ReadAll` says for every
  entity; where no byte is passed over that is the automaton's verdict (`Verdict`), otherwise it is the reading
  of the bytes behind that byte (`VerdictBehind`). `RefusedYetStored` and `SuchAnEntity` give entities that the
  automaton refuses and the driver stores.
- At most one agent drives the handler as long as each thread that takes the flag finds the handle closed,
  closing, or open on its own loop (`OneDriver`). The handle is only looked at before the flag is taken, and a
  failed connection gives the flag back with the handle still open. `ForeignReached` is a careful run to a
  state in which another loop's thread may take the flag, `TwoDrivers` leads from every such state, in three
  steps, to two agents in the handler, and `ExclusionFails` puts the two together.
- A query that is let in while the pending ones are being failed is discarded, although its caller was told
  that it was accepted. `Conserved` says exactly which queries these are, `NeverHeard` that they are never told
  anything and their handle is never closed, and `DiscardReached` that it happens while two others are told.
- A caller that finds the flag of ready queries set leaves its query to whoever drives the connection. Somebody
  does exactly while the flag that admits one agent is set (`AttendedIff`). Otherwise nobody is told anything until
  the connection is to be closed (`Stranded`), and a failed send leads to such a state (`ForsakenReached`).
- An element of an access-list request that already carries the builder's own mark is not inserted when its
  user has no row; the table becomes what was requested if and only if there is none (`SynchronisedIff`,
  `SomeoneLost`).
- A key can outlive its id in the key store: when a fetched set repeats an id and a later one lacks it, only the
  first key is removed (`StaleKey`). The store has keys for exactly the ids of the set just fetched if and only
  if no dropped id had two (`MergedIds`).
- A failed directory operation leaves only the ancestors requested so far in the path buffer (`MakeAll`).

## Model

| member | source | states |
|---|---|---|
| `MultipartAutomaton.FeedConcat` | services/media/src/app_server/multipart_parser.c:77-306 | Feeding two pieces one after the other is feeding their concatenation: same state, callbacks, acceptance and count. |
| `MultipartParser.Parser.constructor` | services/media/src/app_server/multipart_parser.c:46-73 | A new parser is in the opening state with a lookbehind buffer eight bytes longer than the boundary. |
| `MultipartParser.Parser.AtInitialBoundary` | services/media/src/app_server/multipart_parser.c:102-125 | A byte of the opening boundary line has the automaton's effect, or is refused when the automaton refuses it. |
| `MultipartParser.Parser.AtFieldName` | services/media/src/app_server/multipart_parser.c:127-152 | Field-name bytes held back since `mark`, completed, give the automaton's callbacks; a CR makes no callback and drops them. |
| `MultipartParser.Parser.AtFieldValue` | services/media/src/app_server/multipart_parser.c:163-182 | The same for field values, after leading spaces. |
| `MultipartParser.Parser.AtPlainData` | services/media/src/app_server/multipart_parser.c:193-213 | The same for part data; a CR hands over what was collected and is kept in the lookbehind buffer. |
| `MultipartParser.Parser.AtTransition` | services/media/src/app_server/multipart_parser.c:215-243 | A byte after CR, CRLF or CRLF and a hyphen either extends the match or hands over the held bytes and is read again. |
| `MultipartParser.Parser.AtNextBoundary` | services/media/src/app_server/multipart_parser.c:245-262 | The same within the boundary; its last byte ends the part. |
| `MultipartParser.Parser.AtPunctuation` | services/media/src/app_server/multipart_parser.c:264-298 | The bytes that end headers, parts and the entity have the automaton's effect; nothing is accepted after the end. |
| `MultipartParser.Parser.Dispatch` | services/media/src/app_server/multipart_parser.c:89-303 | One pass of the loop simulates one step of the automaton, and a re-read strictly shortens the held bytes. |
| `MultipartParser.Parser.Execute` | services/media/src/app_server/multipart_parser.c:77-306 | A call terminates, stops at the first callback that asks for it or the first refused byte, returns the source's count, and otherwise makes the automaton's callbacks up to regrouping; it reports all bytes of field names but those it holds back when a CR cuts the name. |
| `MultipartParser.ExecutePieces` | services/media/src/app_server/multipart_parser.c:77-306 | Over any pieces whose first has three bytes, acceptance, final state and index, order of callbacks and concatenated data are those of the whole stream, but for what is reported of a name that a CR cuts short. |
| `MultipartChunks.SplitAgrees` | services/media/src/app_server/multipart_parser.c:86-305 | Two ways to cut the same stream are both accepted exactly when the automaton accepts it, both make its callbacks up to regrouping, and so the same ones; only of a name that a CR cuts short may more or less be reported. |
| `MultipartChunks.FindCut` | services/media/src/app_server/multipart_parser.c:133-152 | If a name was cut, there is a position in the stream at which a CR arrives in the middle of a name. |
| `MultipartChunks.LostAtCut` | services/media/src/app_server/multipart_parser.c:135-151 | One call over such a CR loses exactly the bytes of the name read in that call, which a cut before the CR saves. |
| `MultipartChunks.CutShows` | services/media/src/app_server/multipart_parser.c:133-152 | At every such position, whatever callbacks the parser makes in one call and in two calls that meet there, those for field names differ. |
| `MultipartChunks.SplitDiffers` | services/media/src/app_server/multipart_parser.c:133-152 | The parser run in both ways: each call does what `Execute` promises, and the reported field names differ. |
| `MultipartChunks.CutHappens` | services/media/src/app_server/multipart_parser.c:133-152 | A stream in which a CR cuts a name: the opening boundary, one letter and a CR. |
| `MultipartMatching.NoDelimiterYet` | services/media/src/app_server/multipart_parser.c:200-262 | For a CR-free boundary and data without a delimiter, all bytes are handed over but the longest proper prefix of the delimiter at the end. |
| `MultipartMatching.DelimiterFound` | services/media/src/app_server/multipart_parser.c:200-262 | The part ends at the leftmost occurrence of CRLF, two hyphens and the boundary, and exactly the bytes before it are emitted. |
| `MultipartRoundTrip.GoesEntity` | services/media/src/app_server/multipart_parser.c:86-305 | The automaton accepts every rendered list of parts and reports their headers, bodies and ends in order, then the end of the body. |
| `MultipartRoundTrip.RoundTrip` | services/media/src/app_server/multipart_parser.c:86-305 | Whatever callbacks the parser makes for a rendered, non-empty list of good parts, they give back the same headers and bodies, and one end of the body, last. |
| `MultipartRoundTrip.ParseRendered` | services/media/src/app_server/multipart_parser.c:86-305 | The parser on such an entity in any pieces accepts it and returns those parts. |
| `Bytes.Letters` | services/media/src/app_server/multipart_parser.c:142-149 | The letters that a field name may have are A to Z and a to z. |
| `MultipartGrammar.ReachesEntity` | services/media/src/app_server/multipart_parser.c:86-305 | Every non-empty list of parts with names, values and bodies as the grammar has them, header names cut short included, is accepted to the end. |
| `MultipartLanguage.AcceptedIff` | services/media/src/app_server/multipart_parser.c:86-305 | For CR-free boundaries, a stream is accepted exactly if some continuation makes it an entity of the grammar, which names no state: nothing else gets through. |
| `MultipartLanguage.EndedIff` | services/media/src/app_server/multipart_parser.c:86-305 | The final state is reached exactly behind a whole entity, and a name was cut exactly if the entity drops one. |
| `MultipartLanguage.RenderedIff` | services/media/src/app_server/multipart_parser.c:86-305 | It is reached without a cut name exactly on the rendered lists of good parts: the converse of the round trip. |
| `MultipartLanguage.OpeningFirst` | services/media/src/app_server/multipart_parser.c:89-125 | For any boundary, an accepted stream is a beginning of two hyphens, the boundary and CRLF as long as the state is an opening one, and begins with them afterwards. |
| `MultipartLanguage.RefusedAt` | services/media/src/app_server/multipart_parser.c:86-305 | A refused stream reports what its accepted bytes report, and the refused byte leaves the state alone, but that a name may count as begun. |
| `MultipartCounting.HeldBound` | services/media/src/app_server/multipart_parser.c:200-262 | In every reachable state at most boundary length plus three bytes are held. |
| `MultipartCounting.FeedConserves` | services/media/src/app_server/multipart_parser.c:200-262 | Bytes released plus bytes held never exceed bytes held before plus bytes read, and the end of the body is reported only in the final state. |
| `MultipartCounting.EndIsFinal` | services/media/src/app_server/multipart_parser.c:295-298 | After the end of the body nothing is accepted or reported. |
| `UploadPart.NoOverflow` | services/media/src/api/upload_part.c:148-161 | One parser call on a slice releases at most slice length plus boundary length plus three bytes, so the write buffer never overflows. |
| `UploadPart.AbortMeansSecondPart` | services/media/src/api/upload_part.c:148-172 | A call that a callback stopped was stopped by the beginning of a second part. |
| `UploadPart.Upload.OnPartData` | services/media/src/api/upload_part.c:148-161 | Part data is appended to the write buffer, or refused if it does not fit. |
| `UploadPart.Upload.ReadSlice` | services/media/src/api/upload_part.c:233-255 | A slice is parsed; what has been written and buffered, followed by the reading of the rest, is the reading of the entity. |
| `UploadPart.Upload.SubmitWrite` | services/media/src/api/upload_part.c:241-245 | The buffered bytes become one non-empty write, added to the recorded size; the round goes on exactly if storage accepts that request. |
| `UploadPart.Upload.SubmitClose` | services/media/src/api/upload_part.c:246-249 | The file is closed once, when the entity's reading ends in closing and all of its writes have been made; this succeeds exactly if storage accepts the request. |
| `UploadPart.Upload.WriteStart` | services/media/src/api/upload_part.c:220-259 | With every earlier request accepted, each round ends with a non-empty write and more read, or with the close, the error or the endless repetition in which the reading of the entity ends, or with a refused request. |
| `UploadPart.Upload.Run` | services/media/src/api/upload_part.c:220-278 | For every entity and every storage: a storage error is the outcome exactly if storage refuses a request that the slice-by-slice reading makes, and then the refused one is the last and no earlier one was refused; otherwise all are accepted, the outcome and the writes are those of the reading, and the file is closed once exactly if that ends in closing. Writes are non-empty and sum up to the recorded size. |
| `UploadReading.Verdict` | services/media/src/api/upload_part.c:220-278 | If no refused byte is passed over, the reading closes exactly a complete single part, loops exactly on a truncated one, reports exactly the failing ones, and writes the part data. |
| `UploadReading.VerdictBehind` | services/media/src/api/upload_part.c:233-255 | If one is, the data before it is written and the reading goes on behind it from the state of the refusal, so an error is reported exactly if one is reported from there. |
| `UploadPassedOver.RefusedYetStored` | services/media/src/api/upload_part.c:233-255 | A field name that ends at the end of the first slice in a byte no name may have: refused by the automaton, stored by the driver, for every such name, byte, header and body. |
| `UploadPassedOver.SuchAnEntity` | services/media/src/api/upload_part.c:233-255 | One such entity, with a short boundary and body. |
| `UploadOfOnePart.StorePart` | services/media/src/api/upload_part.c:220-278 | A rendered part followed by at least one byte is stored: the writes concatenate to the body, one close, size of the body. Followed by none, the driver loops. |
| `UploadOfOnePart.QuotaEstimate` | services/media/src/api/upload_part.c:426-444 | The blank line is found where the headers end, and the estimate is the body plus two bytes plus what follows the closing delimiter, with one CRLF the body plus four; a NUL in a header value hides the blank line. |
| `LinkedNodes.Link` | services/media/src/utils.c:100-111 | The node is put between its neighbours, either of which may be absent. |
| `LinkedNodes.Unlink` | services/media/src/utils.c:113-123 | The neighbours are joined and the node is left without links. |
| `LinkedNodes.Remove` | services/media/src/utils.c:113-123 | Unlinking the k-th node of a doubly linked list leaves the list without it, well formed. |
| `LinkedNodes.Cut` | services/media/src/models/connection.c:85-92 | Cutting a list behind a node leaves two well-formed lists. |
| `ConnectionPool.Pool.InsertConn` | services/media/src/models/pool.c:35-44 | A new connection becomes the head of the free list. |
| `ConnectionPool.Pool.AcquireFree` | services/media/src/models/pool.c:94-111 | The connection handed out is the one free longest; free and locked lists stay well formed and partition the created connections. |
| `ConnectionPool.Pool.ReleaseUsed` | services/media/src/models/pool.c:113-144 | A locked connection goes to the end of the free list; any other is refused without a change. |
| `QueryBatch.Connection.AppendPending` | services/media/src/models/connection.c:5-23 | A query is appended to the pending list, which stays well formed. |
| `QueryBatch.Connection.FillBuffer` | services/media/src/models/connection.c:54-73 | The walk finds the longest prefix of total size below the limit, and the buffer holds its statements in order. |
| `QueryBatch.Connection.UpdateReadyQueries` | services/media/src/models/connection.c:36-103 | With nothing processing, the pending list is split into the batch and the rest, both well formed; the batch is the longest prefix below the limit, not empty unless nothing is pending, and the buffer holds exactly its statements and a NUL that fits. With a batch, nothing changes. |
| `QueryBatch.FirstFits` | services/media/src/models/query.c:82-95 | Because every query passed the strict size check, a non-empty pending list gives a non-empty batch. |
| `QueryBatch.Connection.TryEvict` | services/media/src/models/connection.c:105-123 | The first query's remaining count goes down, and at zero it leaves the processing list, which stays well formed. |
| `DbHistory.OnlyLastFinal` | services/media/src/models/mariadb.c:492-516 | In a lawful history only the last note is final. |
| `DbHistory.PhaseParses` | services/media/src/models/mariadb.c:700-879 | Every lawful history is a sequence of result sets, each an empty one or an opening, rows and a release; finished ones are all declared sets, or fewer and one error. |
| `DbLedger.Submits` | services/media/src/models/connection.c:5-23 | Accepting a query keeps the books. |
| `DbLedger.Tells` | services/media/src/models/mariadb.c:706-733 | The opening of a result set, or a row, is told to the first query of the batch and to no other, and the books are kept. |
| `DbLedger.EndsGroup` | services/media/src/models/mariadb.c:852-879 | The end of a result set is told to the first query and to no other, finally exactly when it was its last, and the query then leaves the batch for the finished ones. |
| `DbLedger.FailsProcessing` | services/media/src/models/mariadb.c:70-98 | Failing the batch tells each of its queries, and no other, one final error, and all of them are finished. |
| `DbLedger.FailsPending` | services/media/src/models/mariadb.c:100-110 | The same for the pending queries; queries that arrive meanwhile are left untold and in none of the lists. |
| `DbLedger.FormsBatch` | services/media/src/models/connection.c:36-103 | The batch is a beginning of the pending queries of the length asked for, not empty if there are any; order, records and books are kept, and the batch is owed the sum of its result sets. |
| `DbLedger.Drains` | services/media/src/models/query.c:64-76 | The callbacks of the query, and of no other, have seen all it was told; its handle has been closed exactly once if it is finished, however often this happens. |
| `DbSafety.RoundLawful` | services/media/src/models/mariadb.c:539-940 | Each case of the handler changes flag, handle, poll, state and queries only together as the invariant needs; what it tells is stated by `SetsDelivered`, `CodeTold` and `ToldOtherwise`. |
| `DbSafety.StepKeeps` | services/media/src/models/mariadb.c:518-940 | Every step of every thread keeps the invariant, if a thread that takes the flag finds the handle not open on another loop. |
| `DbSafety.RunKeeps` | services/media/src/models/mariadb.c:518-940 | The invariant holds in every state of every such run. |
| `DbTheorems.OneDriver` | services/media/src/models/mariadb.c:518-536 | At most one agent is in the handler; the flag is set outside INITED, CONN_START, QUERY_START and CLOSE_DONE; nothing is armed while it is clear. |
| `DbTheorems.Conserved` | services/media/src/models/connection.c:36-123 | The queries there are have been submitted, or were let in while the pending ones were failed, not both; the submitted ones are, in that order, the finished ones, the batch and the pending ones, none twice. |
| `DbTheorems.InTurn` | services/media/src/models/connection.c:36-123 | Over every run, no query is told anything before all that were submitted earlier are finished. |
| `DbTheorems.Results` | services/media/src/models/mariadb.c:492-516 | Over every run, what a query was told falls into result sets; a finished query was served or given up with one error, no other note is final, and its handle is closed exactly once the last note was delivered. |
| `DbTheorems.NothingAfterFinal` | services/media/src/models/mariadb.c:700-879 | Between any two positions of a run, a query finished at the first is finished at the second and has been told nothing more. |
| `DbExactServer.ServedExactly` | services/media/src/models/mariadb.c:688-879 | If as many result sets end as the batch is owed and nothing fails, every query of the batch got the declared number of result sets, only the last note final. |
| `DbScript.ScriptNotes` | services/media/src/models/mariadb.c:700-879 | The calls that report a list of result sets call for exactly these notes: for each set that is owed, that it is empty, or its opening, one note per row and its release. |
| `DbResultSets.TalkGoes` | services/media/src/models/mariadb.c:617-879 | Over every careful run after a batch was sent, if the library's answers are those of a list of result sets, the calls are made in the order of that list, and at every step the batch has been told what the calls so far call for. |
| `DbResultSets.SetsDelivered` | services/media/src/models/mariadb.c:617-879 | When all of the list has been reported, the calls were exactly its calls, the batch has been told exactly the notes of the result sets it was owed, in order, one query after the other, and the handler is back where it looks for the next batch. |
| `DbShares.OwnResultSets` | services/media/src/models/mariadb.c:492-516 | If the server returns at least what the batch was owed, each query is finished and has been told of exactly its own result sets, those behind the ones that the queries before it declared; this stays so in all later states. |
| `DbProgress.CanBeDelivered` | services/media/src/models/mariadb.c:617-879 | Every careful run that is about to send a batch goes on to one in which any given list of result sets is reported to the end. |
| `DbProgress.ToldExactly` | services/media/src/models/mariadb.c:617-879 | For every non-empty list of result sets there is a careful run from the start in which a query that declared as many is finished and was told just them. |
| `DbOutcomes.CodeTold` | services/media/src/models/mariadb.c:586-933 | Whatever other threads do in between, the code with which a connect, send, fetch, release, move or close ends is dealt with thus: a failed connect fails batch and pending queries with that code and closes; a failed send fails the batch alone, and closes exactly on a network error; any fetch but the end of rows and every release are told to the first query with that code; a close at shutdown fails all as busy. |
| `DbOutcomes.ToldOtherwise` | services/media/src/models/mariadb.c:539-940 | In any other step, the look at a new result set apart, nobody is told anything. |
| `DbOutcomes.Rests` | services/media/src/models/mariadb.c:617-678 | With nothing to send the handler gives the flag back and closes the handle, or goes on to close the connection exactly at shutdown. |
| `DbFailures.EachGivesUp` | services/media/src/models/mariadb.c:70-110 | At every failing step of every run, each query on a list that is emptied is told one thing more, the error, which is final, and gave up after some result sets; no other query is told anything. |
| `DbFailures.NeverHeard` | services/media/src/models/mariadb.c:100-110 | A query let in while the pending ones are failed is never told anything, and its handle is never closed, in all later states. |
| `DbFailures.DiscardReached` | services/media/src/models/mariadb.c:100-110 | A run from the start discards any given query: two callers let queries in, the connect that one of them makes fails, both are told so, and the query arrives just then. |
| `DbRace.TwoDrivers` | services/media/src/models/connection.c:143-172 | From every state in which a thread may take the flag with the handle open on another loop, three steps put two agents into the handler. |
| `DbRace.ForeignReached` | services/media/src/models/mariadb.c:908-933 | Such a state is reached by a run that has been careful so far, in which two callers each let a query in before they see to the connection: it fails, both queries are told so, and the flag is given back with the handle open. |
| `DbRace.ExclusionFails` | services/media/src/models/connection.c:143-172 | That run goes on, careful at all steps but one, to two different agents in the handler. |
| `DbStranded.AttendedIff` | services/media/src/models/connection.c:143-168 | Over every careful run, an agent is in the handler or its next event is awaited exactly while the flag is set. |
| `DbStranded.Stranded` | services/media/src/models/connection.c:149-155 | If it is clear while queries count as ready and no thread is on its way, then, until a thread sets out to close the connection, nobody is told anything and every query let in stays pending. |
| `DbStranded.ForsakenReached` | services/media/src/models/mariadb.c:908-933 | Such a state is reached by a careful run: one query is sent in vain and told so, and the connection is closed with nothing left to do. |
| `DbHandler.Connection.Transition` | services/media/src/models/mariadb.c:539-940 | A handler call, with any submissions, answers, batches and late arrivals round by round, goes through the rounds of the protocol, keeps the invariant, loses no result, and ends with the flag given back and nothing armed, or waiting for an event. |
| `Base64Bits.FirstSextet` | services/media/src/base64.c:52-65 | The shift for the first symbol of a triple is the division of the model. |
| `Base64Bits.SecondSextet` | services/media/src/base64.c:53-70 | The masks and shifts that join two bytes into the second symbol are the sum of the model. |
| `Base64Bits.ThirdSextet` | services/media/src/base64.c:54-71 | The same for the third symbol. |
| `Base64Bits.FourthSextet` | services/media/src/base64.c:55 | The mask for the fourth symbol is the remainder of the model. |
| `Base64Bits.FirstByte` | services/media/src/base64.c:131 | The decoder's first byte, shifted, joined and cut to eight bits, is that of the model. |
| `Base64Bits.SecondByte` | services/media/src/base64.c:132 | The same for the second byte. |
| `Base64Bits.ThirdByte` | services/media/src/base64.c:133 | The same for the third byte. |
| `Base64.PlainConcat` | services/media/src/base64.c:50-62 | The standard encoding (section 4 of RFC 4648) of whole triples followed by more is the concatenation of both encodings. |
| `Base64.LinesAreShort` | services/media/src/base64.c:57-78 | No line of any text wrapped as the encoder does is longer than 72 characters. |
| `Base64Codec.EstimateOverflows` | services/media/src/base64.c:38-42 | The overflow test on the wrapped size fires exactly when four times the length does not fit a size. |
| `Base64Codec.EncodeTriple` | services/media/src/base64.c:50-62 | One round of the encoder extends the wrapped text by four symbols, and by a line feed when the line is full. |
| `Base64Codec.EncodeRest` | services/media/src/base64.c:64-78 | One or two last bytes are padded and the last line is ended. |
| `Base64Codec.Encode` | services/media/src/base64.c:32-84 | For every length: refused exactly on overflow, otherwise the text and its NUL fit the estimate, and the text is the standard encoding wrapped at 72 characters. |
| `Base64Decoder.BuildTable` | services/media/src/base64.c:101-104 | The table gives the value of each symbol, zero for the padding and 0x80 otherwise. |
| `Base64Decoder.FinishBlock` | services/media/src/base64.c:128-146 | Four entries become three bytes, less the padding; more than two paddings are invalid. |
| `Base64Decoder.Decode` | services/media/src/base64.c:96-152 | For every input the result is that of decoding the significant bytes block by block up to the first padded one, and no write leaves the buffer of the first pass. |
| `Base64Decoder.IsEncoded` | services/media/src/base64.c:154-163 | True exactly when no byte would be skipped by the decoder. |
| `Base64Decoder.RoundTrip` | services/media/src/base64.c:96-152 | Any text whose significant bytes are the encoding of a non-empty string decodes to it. |
| `Base64Decoder.EncodedLines` | services/media/src/base64.c:57-78 | For every input no line of the encoder's text is longer than 72 characters, and a non-empty text ends with a line feed. |
| `Base64Decoder.EncodeThenDecode` | services/media/src/base64.c:32-152 | Decoding the encoding, line feeds included, returns the same bytes. |
| `Base64Decoder.EncodeShort` | services/media/src/transcoder/crypto.c:105-110 | For 1 to 54 bytes the only line feed is the last character; without it the text passes the check and decodes to the input. |
| `Base64Stream.Tables` | services/media/src/base64.c:17-18 | The encoder's table is the alphabet of RFC 4648 in order; the decoder's inverts it and marks exactly the bytes outside it. |
| `Base64Stream.EncodedValue` | services/media/src/base64.c:50-72 | For every input, the text and the bytes, filled up with zeros to triples, are the same number in base 64 and base 256, and padding stands exactly behind the symbols that the bytes need. |
| `Base64Stream.DecodedValue` | services/media/src/base64.c:96-152 | For every text: rejected exactly if it has no significant byte, their number is no multiple of four, or the first padded block has more than two paddings; otherwise the bytes are the number in base 256 that the blocks up to and including that one are in base 64, less one byte per padding. |
| `Base64Stream.LinesAt` | services/media/src/base64.c:57-78 | Every position of the wrapped text: a line feed behind each 72 symbols and at the end, and otherwise the next symbol. |
| `UploadLifecycle.Aggregate` | services/media/src/api/complete_multipart_upload.c:228-242 | Largest and smallest part number and count, all zero without a row. |
| `UploadLifecycle.AdjacentIffWhole` | services/media/src/api/complete_multipart_upload.c:201-202 | The check passes exactly when the parts are numbered 1 to n without gaps. |
| `UploadLifecycle.InitiateKeeps` | services/media/src/api/initiate_multipart_upload.c:14-34 | A new request keeps the invariant, in particular at most three rows per user. |
| `UploadLifecycle.UploadKeeps` | services/media/src/api/upload_part.c:73-106 | Only an uncommitted request takes chunks, so those behind files stay whole. |
| `UploadLifecycle.CompleteKeeps` | services/media/src/api/complete_multipart_upload.c:97-167 | Committing a request to a new or existing file, which reopens the file's last request, keeps the invariant. |
| `UploadLifecycle.DiscardKeeps` | services/media/src/api/discard_committed_file.c:50-66 | Deleting a file with its chunks and its request keeps the invariant. |
| `UploadLifecycle.AlwaysKept` | services/media/src/api/complete_multipart_upload.c:84-187 | After every sequence of steps: a request is committed exactly when one and only one file of its owner has it last, chunks behind files are 1 to n, no chunk is without its request, at most three requests per user. |
| `UploadLifecycle.OwnerKept` | services/media/src/api/complete_multipart_upload.c:84-187 | Over every sequence of steps of anybody, a file keeps its owner until the owner discards it. |
| `UploadLifecycle.OwnerGained` | services/media/src/api/complete_multipart_upload.c:97-167 | A user gets a file only by completing an uncommitted request of their own for it while nobody owns it. |
| `UploadLifecycle.Database.InitiateUpload` | services/media/src/api/initiate_multipart_upload.c:14-34 | Created exactly if the user has fewer than three requests and none of that number, and then only this request is new, uncommitted and without chunks; refused exactly at three; otherwise nothing changes. The invariant is kept. |
| `UploadLifecycle.Database.AddChunk` | services/media/src/api/common.c:75-114 | Created exactly if the request is uncommitted and has no such part, and then only this chunk is new; otherwise nothing changes; the parts behind every file stay as they are. The invariant is kept. |
| `UploadLifecycle.Database.CompleteUpload` | services/media/src/api/complete_multipart_upload.c:97-210 | Refused exactly if the request is unknown, committed or not whole; otherwise forbidden exactly if the file is another user's, created exactly if there is none, else accepted. On success the request is committed and the file's last, and the file's former request is open again; otherwise nothing changes. The invariant is kept. |
| `UploadLifecycle.Database.DiscardFile` | services/media/src/api/discard_committed_file.c:50-66 | Accepted exactly if the file is there and the user's, and then only it, its request and its chunks are gone, with room for another request; all other files are spared; otherwise nothing changes. The invariant is kept. |
| `AccessControl.FindItem` | services/media/src/acl.c:237-250 | The first element for a user, or the length of the list. |
| `AccessControl.RefreshRow` | services/media/src/acl.c:235-253 | A row whose user is requested takes the access of the first such element, which is marked. |
| `AccessControl.BuildUpdateLists` | services/media/src/acl.c:229-270 | The update and delete lists are the rows whose user is, and is not, requested, in order; rows and elements end refreshed and marked; no list outgrows its array. |
| `AccessControl.CollectInserts` | services/media/src/acl.c:255-266 | The insert list is made of the unmarked elements, in order. |
| `AccessSync.RowsAscend` | services/media/src/acl.c:233-253 | The update and delete lists name each of their rows once, in order. |
| `AccessSync.Synchronised` | services/media/src/acl.c:317-392 | For distinct rows and requested users distinct after cutting their ids to 32 bits, delete, update, insert does not fail and leaves what was requested of the cut ids, but for marked elements without a row. |
| `AccessSync.SynchronisedIff` | services/media/src/acl.c:229-392 | The table becomes precisely the requested map if and only if no marked element is without a row. |
| `AccessSync.SomeoneLost` | services/media/src/acl.c:255-266 | A marked element for a user without a row is lost. |
| `AccessVerify.CompareOrders` | services/media/src/api/edit_usrlvl_access_ctrl.c:120-122 | Below 2^31 the comparator orders numbers; at 2^31 it no longer does. |
| `AccessVerify.OneOrdering` | services/media/src/api/edit_usrlvl_access_ctrl.c:136-138 | Two orderings of the same ids below 2^31 are the same sequence. |
| `AccessVerify.Verify` | services/media/src/api/edit_usrlvl_access_ctrl.c:124-150 | Acceptance means the same ids as the profiles, hence distinct ones; for ids below 2^31 it is equivalent to that. |
| `AccessVerify.AcceptedSynchronises` | services/media/src/api/edit_usrlvl_access_ctrl.c:124-150 | A request accepted against distinct profiles is synchronised without failure; if no element is lost, the users in the table are exactly the profiles. |
| `Admission.StepKeeps` | services/media/src/app_server/worker.c:72-112 | Each increment, socket, failure, undo and close keeps the counter equal to sockets plus unsettled increments, and places within the limit. |
| `Admission.Admitted` | services/media/src/app_server/network.c:201-209 | Over every interleaving of any number of workers the counter is that sum and not negative, and open sockets never exceed the limit. |
| `Admission.LetIn` | services/media/src/app_server/worker.c:84-112 | A client is let in exactly while sockets and unsettled increments are fewer than the limit; nobody else is affected. |
| `Mkdir.Operation.NextToken` | services/media/src/storage/localfs.c:83-84 | The tokenizer's next component of any path, and where it goes on. |
| `Mkdir.Operation.NextParent` | services/media/src/storage/localfs.c:64-93 | For every path: the parent grows by the next component, so that the requests are the prefix, if there is one, and a slash, followed by the first components joined; a missing component or a dot is an error, and the length check never trips. |
| `Mkdir.Operation.Restore` | services/media/src/storage/localfs.c:102-113 | The parent without the prefix is copied back within the buffer. |
| `Mkdir.Operation.MakeAll` | services/media/src/storage/localfs.c:95-151 | For components joined by single slashes: the requests are the joined first one, two, three and so on of them, behind the prefix and a slash if there is a prefix, each once, up to the first real failure; completion restores the path. |
| `Keystore.Store.Position` | services/order/src/auth.rs:294-297 | The first key with the id; every key looked at has one. |
| `KeySets.WithoutOneMore` | services/order/src/auth.rs:291-302 | It does not matter in which order the dropped ids are dealt with. |
| `Keystore.Store.RemoveAll` | services/order/src/auth.rs:291-302 | For any keys and any order of the dropped ids, the first key of each is removed and the others stay in order. |
| `Keystore.Store.Merge` | services/order/src/auth.rs:282-312 | What a look-up finds afterwards, for every id: the old key if the id stays, the first fetched one if it is new, the second old one if it is dropped; the counts are the sizes of the two differences. |
| `KeySets.MergedIds` | services/order/src/auth.rs:282-312 | The store has keys for exactly the ids of the fetched set if and only if no dropped id had two keys. |
| `KeySets.MergedDistinct` | services/order/src/auth.rs:282-312 | If neither the store nor the set repeats an id, the store then has one key for each id of the set. |
| `KeySets.MergedOrder` | services/order/src/auth.rs:291-312 | The keys that stay come first, in their order, one fewer for each dropped id; the new ones follow in the order of the set. |
| `KeySets.StaleKey` | services/order/src/auth.rs:291-302 | A set that repeats an id, followed by one without it, leaves a key of that id. |
| `Keystore.Store.Refresh` | services/order/src/auth.rs:241-266 | The server is asked only when more than the period has passed; a failure changes nothing; otherwise the set is taken over, the time noted, and the counts are the sizes of the differences of the ids. |
| `Keystore.Store.RefreshAll` | services/order/src/auth.rs:241-266 | Keys, time and the calls whose set was taken over are those of the fold over the calls, for every start and every sequence. |
| `KeystoreHistory.TakenIff` | services/order/src/auth.rs:241-266 | A call takes over a set exactly when one was fetched more than a period after the last one taken. |
| `KeystoreHistory.TakenApart` | services/order/src/auth.rs:241-266 | Any two sets are taken over more than a period apart, and the time noted is that of the last. |
| `KeystoreHistory.LatestIds` | services/order/src/auth.rs:282-312 | A store that started empty and took over no set with repeated ids has one key for each id of the latest set and no other. |
| `KeystoreHistory.KeyOrigin` | services/order/src/auth.rs:282-312 | The key found for an id is the one that came with the first of the unbroken run of sets that have the id; later sets do not replace it. |

## Left out

- Sockets, TLS, libuv, libh2o, MariaDB and RabbitMQ clients: their outcomes are inputs of the steps.
- Remote procedure calls, configuration, routing, the transcoder, authentication tokens, hex conversion and the query-string decoder: foreign calls or easy members.
- The Python services and the payment and order domain models.
- Liveness of the database layer, and a server that returns too few result sets: the source promises nothing there.
- `DbSafety.StepKeeps`: a case of the handler is one step; the failing of pending queries and the arming of a poll are split further, other interleavings with submissions inside a case are not.
- `DbSafety.StepKeeps`: arming a handle that is being closed counts as a failure to arm, and closing its two parts as one event.
- `DbSafety.StepKeeps`: the run of a loop by the main thread at shutdown, inside the check whether a connection is closed, is not a step.
- `DbSafety.StepKeeps`: memory is sequentially consistent, also where the source uses relaxed loads.
- `DbSafety.StepKeeps`: runs stop at the program's assertion that a fetched row is present.
- `DbResultSets.SetsDelivered`: the contents of a row are not modelled; a note says that a row came.
- `DbResultSets.SetsDelivered`: for answers that a poll can be armed for; when it cannot, `DbOutcomes.CodeTold` applies.
- `DbLedger.FormsBatch`: the batch is any non-empty prefix of the pending list; which one is stated by `QueryBatch.Connection.UpdateReadyQueries`.
- `DbLedger.Drains`: the result queue of a query is a sequence and not a linked list; enqueueing and dequeueing are atomic.
- `MultipartParser.Parser.Execute`: the source reads the first two bytes of a stream, and the byte behind two opening hyphens, without looking at the length; the first call must have them.
- `MultipartParser.Parser.Execute`: after a callback asked to stop, only the callbacks made are stated, since the parser is then discarded.
- `MultipartMatching.NoDelimiterYet`: for boundaries without CR, as multipart boundaries are; with a CR the matcher does not look for overlapping prefixes.
- `MultipartLanguage.AcceptedIff`: likewise for boundaries without CR; `MultipartLanguage.OpeningFirst` is for all.
- `UploadPart.Upload.Run`: checksums are not modelled, and a pass that changes nothing is reported as a loop instead of being repeated.
- `UploadPart.Upload.Run`: entities shorter than four bytes, for which the first read falls short of the opening hyphens.
- `UploadLifecycle.AlwaysKept`: each API call is one atomic step; type checks, storage errors and the access tables of a discarded file are not modelled.
- `AccessVerify.Verify`: `qsort` is represented by what it promises, a permutation that is ordered where the comparator is an order.
- `Base64Codec.Encode`: memory is always available.
- `Mkdir.Operation.MakeAll`: a request that cannot even be handed to the event loop is not distinguished from one that fails.
- `Keystore.Store.Refresh`: time is an integer, and the lock makes each call atomic.
