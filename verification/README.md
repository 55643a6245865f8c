# A verified model of the QGIS server scheduler

The scheduler keeps a pool of FastCGI child processes for every configured project, hands web
requests to idle children, restarts and retires children, and reloads its configuration while it
runs. This project models the parts with the most state and the most interleaving, and proves
what they keep on every run and every input.

`dafny verify dfyconfig.toml` checks everything.

## How the model is laid out

**The pool of children.** `ProcessTable` is the table of children as the SQL statements leave it.
`Pool` is the concurrent protocol over it: one step is one critical section or one system call of an init thread, a connection thread, the SIGCHLD path,
a project start or stop, or the shutdown thread, which has a program counter of its own. A run is
any finite interleaving from the empty pool. `kill()` may succeed or fail at will, the clock never
goes back, and a pid is not handed out again while a row or a thread still refers to it, the
assumption the code itself names at database.c:1048-1053. State writes are unconditional, so an
owner can overwrite TERM, KILL or EXIT with IDLE; the invariants hold all the same.
`PoolSafety` has mutual exclusion and the life cycle, `ShutdownWakeup` the wake-up and deadline
properties, `ShutdownMissed` a child that is forgotten, `ShutdownTiming` the escalation timing
(over `Timer`), `ShutdownProgress` the termination measure, and `ShutdownStop` how the thread ends. `ProcessDatabase` is the database handle, updated in place: each call is one
step of the pool, so that its table is always that of a reachable state and the results about
runs hold of it; `ChildLife` drives a child through it, from its start to its deletion. `log` and `unseen` in the state are history; no step depends on them.

**FastCGI** (FastCGI Specification 1.0, sections 3.3, 3.4, 5.1 to 5.3 and 5.5). `FcgiParam` is the
name-value codec, `FcgiMessage` the record parser and writer, `FcgiSession` the session parser on
values, `FcgiParser` the session object that is updated in place. The record parser exists in two
modes. `AsWritten` follows the code: the copy that resumes a header starts `bytes_read` whole
headers in (fcgi_state.c:493), and the test for "done" forgets the eight header bytes
(fcgi_state.c:621). `AsCommented` follows the comments at fcgi_state.c:483-488 and 617-620.
`FcgiChunking` proves that the commented parser does not depend on how a stream is cut at all, and
decides exactly which cuts the written one survives; a copy beyond the fields of a message, which C
leaves undefined, counts as a failure. `FcgiConversation` has the conversation the
init thread sends to a new child, `FcgiEvaluation` what a session knows after any records.

**Request handling.** `Connection` has the read loop, the in-place KEEP_CONN edit, the retry loop
over children; `Relay` has the relay loop; `Request` joins them from the first byte to the relay.

**Configuration, watches, database and buffers.** `ConfigDiff` compares configurations, `Watch`
counts the references to kernel watches and connects them to a configuration reload,
`SqlTemplate` has the two scanners of SQL templates, `Buffers` the growing buffers.

## Properties that fail, and when they hold

- The wait of the shutdown thread is meant to end when the earliest timer is due. Signal times on
  a whole second are skipped by the query at database.c:208, so it need not. `WholeSecondIsMissed`
  is a run that leaves a terminated child behind in a wait without a deadline, `StaysLeftBehind`
  says what it takes to end it, and `WaitServesExactly` which rows every wait serves.
- A reload of the configuration is meant to end with the files of the new configuration watched.
  Of each list of sections only the last one arrives, because the index into the array is never
  advanced (qgis_config.c:592-601). `SecondSectionOnly` is a configuration with two new sections of
  which one is started; `ReloadExactly` is the exact condition on the two configurations.
- `strnbcat` is meant to append. `Buffers.Resize` says exactly when it gives up, and when its size
  overflows a signed integer first.
- One call and many calls of the session parser agree as long as no chunk ends inside a header or
  close to the end of a record. `CutHeaderFails` has a failing stream for every cut inside a
  header; `ChunkingExactly` is the exact condition on the cuts.
- The init thread sends up to 4095 bytes of pairs in one record, but writes the record into a
  buffer of 4096 bytes, header included. `ConversationExactly`: the child sees the configured
  pairs if and only if they take at most 4088 bytes; with more the record is cut short and the
  parser of this program stops with an error.
- Padding is not skipped by the record parser: `PaddingExactly` for records that announce padding.
- The encoder of a pair reports a buffer that is too small, but a buffer of exactly the right size
  fails an assertion (`FcgiParam.WriteParam`).
- Markers and parameters of an SQL template agree if and only if the template has no question mark
  of its own: `ScannersAgree`.

Where comments and code differ the model follows the code: children at work are signalled at once
when they reach the shutdown list (database.h:65-68 says they finish first); the comment at
stringext.c:231 speaks of 2^n greater than the length, the code picks 2^n not less than it;
config_has_changed never looks at the global values its comment mentions; and the comment at
connection_manager.c:601-606 fears that writing back an incomplete first record overwrites what
follows, but the write is bounded by the chunk, so it changes one bit of any chunk at most. A first
chunk of eight to ten bytes is accepted without its flags; `FlagsInFirstChunk` shows that a request
as clients send it is never routed from such a chunk.

## Model

| member | source | states |
|---|---|---|
| `Timer.AddIsNanosAddition` | timer.c:106-119 | adding two time values adds the instants they denote, and keeps normalised values normalised |
| `Timer.GreaterIffLater` | timer.c:122-149 | on normalised values the field-wise comparison, emptiness and equality are those of the instants |
| `Timer.Clock.AddTo` | timer.c:106-119 | the in-place addition leaves the sum of the instants in the struct |
| `ProcessDatabase.Database.ClaimIdle` | database.c:1091-1101 | on the table of any run: a claimed child was held by nobody and is held by the claiming thread alone afterwards; none is found only if no child of the project is ACTIVE and IDLE |
| `ProcessDatabase.Database.ClaimOrWait` | database.c:1078-1160 | the same over the first look, the wait and the second look at a table other threads have changed; the thread comes back without a child only if each look found none |
| `ProcessDatabase.Database.SetStateIdle` | database.c:1265-1301 | the unconditional write leaves the child to nobody, whatever the shutdown thread wrote meanwhile |
| `ProcessDatabase.Database.RemoveWithStateExit` | database.c:1750-1761 | on the table of any run the statement, which looks at the state alone, deletes nothing outside the SHUTDOWN list |
| `ChildLife.BringUp` | process_manager.c:679-776 | a new child ends up ACTIVE, IDLE and held by nobody; INIT children of the project become ACTIVE; an exchange sends exactly the formerly ACTIVE ones to SHUTDOWN and without one they stay; nothing else changes |
| `ChildLife.Retire` | qgis_shutdown_queue.c:440-476 | a child given up by its thread is in SHUTDOWN, held by nobody, and the shutdown thread is notified |
| `ChildLife.Bury` | process_manager.c:845-892 | a child found dead is in SHUTDOWN whoever holds it, and the shutdown thread is notified |
| `ChildLife.Stages` | qgis_shutdown_queue.c:129-243 | stage by stage and in terms of instants: START, INIT, IDLE and BUSY alike get TERM, a late TERM gets KILL, a late KILL is given up, and a missing process exits at once |
| `ChildLife.VisitPid` | qgis_shutdown_queue.c:114-243 | undisturbed, the row of a pid of the snapshot exists and moves on by one stage, with the new signal time where a signal was sent |
| `ChildLife.Pass` | qgis_shutdown_queue.c:104-250 | an undisturbed pass moves every SHUTDOWN row on by one stage, changes no other row and deletes the exited ones, and is a run of the pool |
| `PoolSafety.WorkHolders` | process_manager.c:123-408 | no step of another thread gives a child a second owner or leaves an owner on a claimable child |
| `PoolSafety.LoopHolders` | qgis_shutdown_queue.c:104-250 | neither does any step of the shutdown thread, whatever state it writes |
| `PoolSafety.RowStep` | database.c:1501-1592 | a row changes only forward in its list; only the shutdown thread, on the pid in hand, writes TERM, KILL, EXIT or a signal time; only EXIT rows are deleted |
| `PoolSafety.InvStep` | qgis_shutdown_queue.c:60-372 | every step of every thread keeps the ownership, phase and snapshot invariants together |
| `PoolSafety.MutualExclusion` | database.c:1078-1160 | on every interleaving no child is held by two threads, and an ACTIVE and IDLE child is held by none |
| `PoolSafety.LifeCycle` | qgis_shutdown_queue.c:114-250 | on every run a signalled or stamped row is in SHUTDOWN, the pid to be looked up exists (the unknown-process branch is dead), and a deleted row was EXIT in SHUTDOWN |
| `PoolSafety.ListsMoveForward` | database.c:1501-1592 | over any stretch of steps a row's list only goes INIT, ACTIVE, SHUTDOWN |
| `PoolSafety.ExchangeIsFinal` | process_manager.c:756-763 | a row that was ACTIVE at an exchange start stays in SHUTDOWN until it is deleted |
| `PoolSafety.LetsGo` | connection_manager.c:638-644 | a thread that is done with its child leaves it to nobody, and marks it idle only after initialising or serving it |
| `PoolSafety.StrandedStep` | connection_manager.c:638-644 | a child let go on the socket failure stays BUSY and unclaimed until it is found dead or its project retires its active children, and no other step changes that |
| `ShutdownStop.EndsOnlyEmpty` | qgis_shutdown_queue.c:340-360 | on every run the thread ends only on request and with an empty SHUTDOWN list |
| `ShutdownStop.StopIsRead` | qgis_shutdown_queue.c:522-545 | after a request every later reading of the flags finds it |
| `ShutdownStop.StopEnds` | qgis_shutdown_queue.c:340-360 | after a request a count that finds the list empty ends the thread, any other starts another pass |
| `ShutdownStop.PassEnds` | qgis_shutdown_queue.c:252-345 | a pass ends by taking a notification that came meanwhile, or by waiting, with the deadline in each case |
| `ShutdownStop.WaitEnds` | qgis_shutdown_queue.c:325-360 | a wait ends by taking the notification and starting another pass, unless the thread ends |
| `ShutdownStop.TellingWakes` | qgis_shutdown_queue.c:489-545 | a notification and a request to stop set their flags and end a wait |
| `ShutdownWakeup.SeenRowsWereSnapshotted` | qgis_shutdown_queue.c:104-123 | a SHUTDOWN row without a pending move was in a snapshot taken since it was moved |
| `ShutdownWakeup.NoLostWakeup` | qgis_shutdown_queue.c:258-345 | while the thread waits unsignalled every SHUTDOWN row was in a snapshot after its move or its mover has yet to notify, and with a stop requested the wait is timed |
| `ShutdownWakeup.WorkWake` | qgis_shutdown_queue.c:440-549 | adding, notifying and requesting a stop keep the wake-up invariant |
| `ShutdownWakeup.LoopWake` | qgis_shutdown_queue.c:258-345 | testing, waiting and clearing the flags keep it |
| `ShutdownWakeup.WaitServesTimers` | database.c:1688-1718 | a wait ends no later than any row with both signal fields non-zero is due |
| `ShutdownWakeup.WaitServesExactly` | qgis_shutdown_queue.c:285-330 | a wait without a stop request covers a row if and only if some row with both fields non-zero was signalled no later |
| `ShutdownMissed.WholeSecondIsMissed` | database.c:207-208 | a reachable state in which a child sent SIGTERM at a whole second is forgotten: no other thread, nothing unseen, a timeout of 10 seconds, and a wait without a deadline |
| `ShutdownMissed.LeftBehindStep` | qgis_shutdown_queue.c:267-322 | exactly a spurious wake-up, a notification and a stop request end such a wait |
| `ShutdownMissed.StaysLeftBehind` | qgis_shutdown_queue.c:267-322 | until one of these the forgotten row stays as it is, over any number of steps and however much time passes |
| `ShutdownTiming.TimeRun` | qgis_shutdown_queue.c:104-226 | on every run each TERM or KILL row's signal time is not before its latest signal, and the log so far kept its timeouts |
| `ShutdownTiming.EscalationKeepsTimeout` | qgis_shutdown_queue.c:104-226 | SIGKILL only strictly more than the pass's timeout after the latest SIGTERM to that pid; a killed row is given up only strictly more than the timeout after its latest SIGKILL |
| `ShutdownProgress.WorkWrites` | process_manager.c:137-392 | in SHUTDOWN a child gets no new owner, and every state write uses up one the owner had left |
| `ShutdownProgress.StepDescends` | qgis_shutdown_queue.c:124-250 | no step of any thread raises the measure (owner writes left, stage), and every signal or giving-up lowers it |
| `ShutdownProgress.SignalsAreBounded` | qgis_shutdown_queue.c:124-250 | from any moment in SHUTDOWN until deletion a pid gets at most 2(w+1) signals, w at most 2 being the writes its owner has left |
| `ShutdownProgress.VisitLowersOrWaits` | qgis_shutdown_queue.c:124-250 | each visit of a pid lowers the measure, or met EXIT, or met an unexpired timer |
| `ShutdownProgress.PassLowersOrWaits` | qgis_shutdown_queue.c:104-252 | from the snapshot of a pass to the deletion at its end, each pid of the snapshot is deleted, or its measure fell, or its timer was found unexpired, whatever other threads do meanwhile |
| `ShutdownProgress.BusyPassesDescend` | qgis_shutdown_queue.c:104-252 | any list of passes, one after the other, that do not wait for the timer of a pid lowers its measure by their number at least |
| `ShutdownProgress.PassesAreBounded` | qgis_shutdown_queue.c:104-252 | a row is in at most 4w+3, hence eleven, such passes before it is deleted, w being the state writes its owner has left |
| `FcgiParam.LengthRoundTrip` | fcgi_state.c:146-225 | one-byte and four-byte lengths decode to what was encoded, wherever they stand |
| `FcgiParam.LengthOnWire` | fcgi_state.c:372-447 | lengths byte by byte as section 3.4 has them |
| `FcgiParam.ParamRoundTrip` | fcgi_state.c:146-225 | parsing an encoded pair followed by anything gives the pair and its size |
| `FcgiParam.ParamsRoundTrip` | fcgi_state.c:287-320 | parsing the concatenation of any encoded pairs gives exactly them, in order, and then what follows |
| `FcgiParam.CutPairIsLost` | fcgi_state.c:287-320 | a record that ends inside a pair gives the pairs before it and nothing of that one |
| `FcgiParam.ParamList.Parse` | fcgi_state.c:287-320 | the pairs of a record are appended to the list |
| `FcgiParam.ParamList.Find` | fcgi_state.c:346-369 | the first pair of that name as C strings, or none exactly if there is none |
| `FcgiParam.WriteParam` | fcgi_state.c:372-447 | "too small" exactly for a buffer shorter than the encoding, a failing assertion exactly at equality, otherwise the encoding in place and every other byte kept |
| `FcgiMessage.OneCall` | fcgi_state.c:472-625 | from a message that may resume, one call as written differs from one as commented only by counting an incomplete record as done |
| `FcgiMessage.PeelMessage` | fcgi_state.c:483-604 | the commented parser, copying whole stretches, takes the first byte as the byte-wise one does, errors included |
| `FcgiMessage.RecordParses` | fcgi_state.c:472-625 | a complete unpadded record is read to its end and no further, in both modes |
| `FcgiMessage.WriteIsRecord` | fcgi_state.c:733-780 | writing a built message gives its record, or as much as there is room for |
| `FcgiSession.ParseLive` | fcgi_state.c:1114-1167 | each inner call reads at least one byte, never more than given, and all of them unless the record is done |
| `FcgiSession.FeedStep` | fcgi_state.c:1114-1167 | one turn of the session loop keeps the session well formed and continues on the unread rest |
| `FcgiSession.CommentedIsByteWise` | fcgi_state.c:483-620 | the commented session parser equals feeding single bytes, on any input |
| `FcgiChunking.AnyCutsAsCommented` | fcgi_state.c:483-620 | as commented, every way to cut any stream gives the result of one call |
| `FcgiChunking.OneCallSession` | fcgi_state.c:1105-1169 | from a safe state one call as written ends where the commented one does, up to a last record counted as done too early |
| `FcgiChunking.CutState` | fcgi_state.c:493-621 | the state a cut leaves behind is safe if and only if the bytes before it say so |
| `FcgiChunking.ChunkingExactly` | fcgi_state.c:472-625 | for any stream that ends on a record boundary and any non-empty chunks, the written parser ends with messages, parameters, id, role and state of one call if and only if every cut is safe |
| `FcgiParser.SessionParser.TakeRecord` | fcgi_state.c:1114-1160 | one inner call and its bookkeeping on the message list |
| `FcgiParser.SessionParser.Parse` | fcgi_state.c:1105-1169 | the loop ends having read every byte unless a record stops the program, computes the session of the value-level parser, and never moves the state back |
| `FcgiParser.FeedMonotone` | fcgi_state.c:1065-1102 | the session state never goes back, END is final |
| `FcgiParser.EvaluatedOnce` | fcgi_state.c:1065-1169 | after any input the parameter list is that of the finished PARAMS records, each counted once |
| `FcgiConversation.RecordsParse` | fcgi_state.c:1105-1169 | any list of well-formed records parses to exactly these messages, evaluated in order |
| `FcgiEvaluation.RecordsGive` | fcgi_state.c:1065-1169 | for any list of records, without reference to the evaluation: END exactly after an empty STDIN record, PARAMS_DONE exactly after an empty PARAMS record without one, id and role of the last begin record, the pairs of the PARAMS records in order, one message for each record |
| `FcgiEvaluation.HeaderVerdict` | fcgi_state.c:504-575 | exactly which types and lengths a header may have, and which error the others give |
| `FcgiEvaluation.HeaderOnWire` | fcgi_state.c:733-780 | a written header byte by byte as section 3.3 has it |
| `FcgiEvaluation.ConversationOnWire` | process_manager.c:208-332 | the init conversation byte by byte |
| `FcgiConversation.WriteParams` | process_manager.c:226-261 | fewer than 128 pairs fill the buffer with their encoding if and only if it takes fewer than 4096 bytes; of 128 or more the child counts as crashed exactly if the first 128 do |
| `FcgiConversation.SendInit` | process_manager.c:208-332 | what is sent is the begin record, the parameters, and the three closing records |
| `FcgiConversation.ConversationRoundTrip` | process_manager.c:208-332 | with at most 4088 bytes the conversation parses to request 1, RESPONDER, the configured pairs in order, and END |
| `FcgiConversation.ConversationExactly` | process_manager.c:208-332 | of the conversations that are sent exactly those of at most 4088 bytes survive |
| `FcgiConversation.CutShort` | fcgi_state.c:733-780 | a longer one makes the parser stop with an error, in all seven cases |
| `FcgiConversation.PaddingExactly` | fcgi_state.c:588-621 | a record whose header announces padding is read as one message if and only if the padding is empty |
| `FcgiConversation.CutHeaderFails` | fcgi_state.c:490-500 | a record cut inside its header parses in one call and fails in two: with an unknown type after one byte, with a copy beyond all fields, which C leaves undefined, after more |
| `Connection.ParsedFields` | fcgi_state.c:472-625 | parsing a chunk marks its first record done exactly if enough bytes are there, and the fields are the chunk's bytes |
| `Connection.ClearKeepConn` | connection_manager.c:573-613 | parse and write back change at most the lowest bit of the flags byte of a begin record; a chunk of eight to ten bytes, which ends before the flags, is accepted and left alone; refused exactly if the first record is not done |
| `Connection.ClearedOnce` | connection_manager.c:573-613 | the edit is idempotent and leaves every other byte alone, so retries repeat it safely |
| `Connection.Receive` | connection_manager.c:292-421 | the queue is exactly the chunks read, in order; the session is theirs; reading stops at the first chunk that makes the request routable, at the first error, and at the end of the data, and not before |
| `Relay.ToChild` | connection_manager.c:828-919 | queued chunks go first, then client bytes, each once; the relay ends exactly on a failed write or the end of the client |
| `Relay.ToClient` | connection_manager.c:921-974 | child bytes reach the client in order; the relay goes on exactly if both halves succeed, and only a failed read sends an abort |
| `Relay.Turn` | connection_manager.c:762-976 | what a turn passes on, either way and independently, and the flags it keeps: to the child as soon as it has room, to the client as soon as there is an answer and room; why a turn is the last |
| `Relay.TurnDelivers` | connection_manager.c:762-976 | the flags stand for what poll() reported since the last time something was passed on |
| `Relay.Run` | connection_manager.c:744-976 | the child gets the queue and then later client bytes, in order, without loss or repetition, and exactly all of it while writes succeed; the same towards the client; while nothing fails a queued chunk goes out for every turn in which the child has room, and client bytes and answers whenever both sides were ready since the last; the last turn explains the end, and at most one abort is sent |
| `Connection.RewriteFirst` | connection_manager.c:573-613 | only the first queued chunk is edited |
| `Connection.Serve` | connection_manager.c:475-986 | at most three children are claimed and only failing ones given up; as multisets the claimed are those set idle, those moved, and those lost on the socket failure; moved are exactly those without a name or a connection, idle exactly those that were connected or lost their client; at most one abort, exactly one if no relay was entered and the client not lost; the relay starts from the queue with the flag cleared if the first chunk reaches it |
| `Request.FlagsInFirstChunk` | connection_manager.c:573-613 | a request that begins with a responder's begin record, no undefined flag and zero reserved bytes, is routable only if its first chunk reaches beyond the flags, so that the assertion on it holds |
| `Request.ClearedStream` | connection_manager.c:573-613 | the edit of the first chunk is the edit of the stream |
| `Request.Handle` | connection_manager.c:290-986 | from the first read to the relay: no answer exactly if a record stops the parser; children are tried exactly for a complete request of a project for a responder, anything else is refused with one abort; a request that begins as it should does not stop the program, and the child gets the stream of the client with the flag off, in order and nothing else, completely while writes succeed |
| `ConfigDiff.SectionChanged` | qgis_config.c:397-453 | unchanged if and only if both sections hold the same keys with the same values |
| `ConfigDiff.Pigeonhole` | qgis_config.c:397-453 | with equally many distinct keys, finding every old entry in the new section suffices |
| `ConfigDiff.HasChanged` | qgis_config.c:463-565 | the three lists are exactly the deleted, new and changed sections, each once |
| `ConfigDiff.PatchIsCorrect` | qgis_config.c:463-565 | the lists are disjoint and applying them to the old configuration gives the new one |
| `Watch.LiveWatches` | qgis_inotify.c:250-382 | in every consistent state the live kernel watches are exactly the positive descriptors in the table, one for each watched directory |
| `Watch.DropWatch` | qgis_inotify.c:357-382 | giving up a project's watch keeps the state consistent, and the count is at most one exactly if no other project uses the watch |
| `Watch.EventSelects` | database.c:1839-1878 | an event on a live watch selects exactly the projects whose file it names; an event of a removed watch selects nobody |
| `Watch.EventSelectsConfigured` | database.c:1839-1878 | while the files of a configuration are watched, an event of a live watch selects exactly the projects whose entry config_file leads to the file it names |
| `Watch.Watches.AddWatch` | qgis_inotify.c:327-336 | one descriptor for each directory, never one that was handed out before for another |
| `Watch.Watches.WatchFile` | qgis_inotify.c:250-351 | a regular file is watched for the project, and an event with its descriptor and base name selects the project; anything else leaves it unwatched; live watches of others stay |
| `Watch.Watches.DeleteWatch` | qgis_inotify.c:357-382 | only this project stops watching, and a kernel watch goes only with its last project |
| `Watch.Watches.Start` | project_manager.c:146-207 | a new project watches its configured file; a project that is already there ends the program |
| `Watch.Watches.Shutdown` | project_manager.c:114-125 | the project is gone and nothing else changes |
| `Watch.Watches.Restart` | project_manager.c:210-214 | the project watches what its configuration now names |
| `Watch.Watches.ShutdownAll` | project_manager.c:128-143 | afterwards no project and no kernel watch is left |
| `Watch.Watches.ManageChanges` | project_manager.c:224-247 | deleted, changed and new projects are handled in this order; the program survives exactly if every project to start is new |
| `Watch.ReloadIsCorrect` | project_manager.c:224-247 | lists that arrive whole lead from what the old configuration wants watched to what the new one wants |
| `ConfigDiff.ConvertListToArray` | qgis_config.c:573-603 | of a list only the last section can be read from the array |
| `Watch.ReloadExactly` | qgis_config.c:936-940 | as written the files of the new configuration end up watched if and only if at most one section is new, at most one deleted, and every changed one but the last names the same file as before |
| `Watch.SecondSectionOnly` | qgis_config.c:573-603 | with two new sections only the second project is started |
| `Watch.Reload` | qgis-schedulerd.c:852-855 | the program survives a reload exactly if the project to start is new; from what the old configuration wants it survives, and ends with what the new one wants if and only if nothing was lost in the arrays |
| `SqlTemplate.Prepare` | database.c:272-350 | fails exactly on an unknown marker; otherwise the text and its terminator fit the copy of the template |
| `SqlTemplate.Bind` | database.c:403-529 | the k-th marker binds the k-th argument to column k; it stops exactly on an unknown marker or on %p |
| `SqlTemplate.TwoCharacters` | database.c:292-338 | exactly p, f, s, d, i and l make a marker, a double percent sign stands for one, and a percent sign before any other character is refused |
| `SqlTemplate.QuestionMarks` | database.c:272-350 | the statement has as many parameters as the template has markers and literal question marks |
| `SqlTemplate.ScannersAgree` | database.c:403-529 | both scanners count the same if and only if the template has no question mark |
| `SqlTemplate.RestoreTemplate` | database.c:272-350 | the text and the bound kinds together give the template back, a percent sign at the end doubled |
| `Buffers.OrStep` | stringext.c:248-252 | one shift-or step doubles the run of ones at the top of a value |
| `Buffers.RoundUp` | stringext.c:242-253 | decrement, five shift-or steps and increment give the least power of two that is not smaller |
| `Buffers.NewSize` | stringext.c:226-260 | the new size is the least power of two that fits, refused exactly above 2^30 |
| `Buffers.MemBuffer.Append` | stringext.c:206-282 | fails, with the buffer unchanged, exactly if it must grow beyond 2^30; otherwise appends, in a block that is kept or has the least fitting power of two |
| `Buffers.Resize` | stringext.c:104-125 | the first doubling that holds the text and its terminator; a signed overflow exactly if one of the first ten sizes is at least 2^30 and still too small, and otherwise given up exactly from 512 times the capacity on |
| `Buffers.StringBuffer.Append` | stringext.c:95-139 | appends and grows to that size, or stops with text and size unchanged |

## Left out

- SQLite, pthread, poll, sockets, fork/exec, regular expressions and the ini parser: atomic table steps, nondeterministic results, or maps and sequences stand for them.
- Waiting for an idle child always succeeding: the move from INIT to ACTIVE does not signal the idle condition (database.c:1546-1558), and a signal may wake a waiter of another project.
- Exactly one replacement for each dead child: the look at the list and the move are separate steps (process_manager.c:857-880), so it holds only for serialised calls.
- Wall-clock bounds for the removal of a row: an EXIT overwritten with IDLE, or a whole-second signal time, can keep a row until the next notification. Progress is stated per visit.
- ShutdownProgress.SignalsAreBounded: counts attempts to signal; it says nothing about a child that is never visited because the shutdown thread is not woken.
- Watch.Reload: the file system is the same during both configurations; a watched directory that is deleted or replaced is not modelled, nor by the program (qgis_inotify.c:312-313).
- The walk over several events in one read of the inotify descriptor (qgis_inotify.c:119-191) and the masks other than written and moved-to.
- The counts of children to start (project_manager.c:249-295, process_manager.c:679-763): only the moves they end in are steps of the pool.
- FcgiParam.ParamRoundTrip: lengths are unbounded integers below 2^31, so the sum of two lengths near 2^31, which overflows an int in C, is not modelled.
- PARAMS pairs that span two records: the program decodes record by record (fcgi_state.c:1073-1077), and the model does too.
- `fcgi_message_new_data`, which emits a record of type STDIN (fcgi_state.c:1374), and end-request building beyond its fixed body.
- Message and parameter lists are sequences, not linked queues; the iterator of the chunk queue is the number of chunks it has passed.
- Relay.Run: a write is complete or fails; partial writes, which the program treats as complete, are not modelled.
- Buffers.StringBuffer.Append: the two string lengths together are taken to fit an int, as the capacity does; what a program does after a signed overflow is not modelled.
- `arraycat`, timers other than addition and comparison, logging, statistics, printing, configuration getters and daemon set-up: they would only add easy members.
