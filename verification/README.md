# Models of the portal's stateful cores

Dafny models of the parts of the portal and of its VPN tooling that keep state across calls,
threads, processes and connections, with proofs of what they promise. `dafny verify dfyconfig.toml`
checks the whole project.

## What is modelled

**The root console** (`ShellSession`, `ShellTransport`, `ShellBrowser`, `ShellSystem`). A pump thread
moves terminal output into a bounded buffer; any number of WebSocket connections, old and new, read
it under a lease that the newest takes; the browser script renders frames, acknowledges them, cuts
input into numbered chunks and resends what was not acknowledged. The classes `RootShellSession`,
`StreamWindow` and `RootShellPage` run each critical section and event handler in place and are
proved against functions on values. `ShellSystem` interleaves these functions with channels that
drop, calls that outlive their connection, late attaches and tear-down. `ShellOutput`, `ShellEnd` and
`ShellInput` prove over every run that nothing is lost, repeated or reordered in either direction,
`ShellFlow` that nothing stalls; `ShellLimits` shows where the guarantees end.

**State transactions** (`StateStore`, `StoreRuns`). The two-level lock, the store's methods, and a
machine of threads in processes with timeouts, failures, killed processes and power loss at every
step of the atomic replacement.

**VPN migration** (`MigrationBounds`, `MigrationSchema`, `MigrationCheck`, `MigrationPlan`,
`MigrationLaws`, `MigrationExport`, `MigrationPreviews`, `PreviewRuns`). The iterative complexity
check, the accumulating validator, the planner, the export, and the table of one-shot previews over
a store that others change. Library parsing (case folding, UUID, IP, base 64) is a parameter of
uninterpreted functions; JSON objects are maps.

**The dashboard cache** (`DashboardCache`, `DashboardRuns`), **the Hysteria user cache**
(`HysteriaUsers`, `HysteriaCache`) and **the runtime tables** (`PortalStorage`, `UpdateRuns`,
`StorageRuns`): each has its locked sections or transactions as methods of a class, and a machine
or a list of calls over which the guarantees are stated.

**The apply plan and the metrics history** (`ApplyPlan`, `Metrics`, `Ordering`).

## Where the code keeps less than one would expect

- Exit before the last byte. A refused terminal write closes the session while the pump goes on
  reading, so a connection can send its exit message while output is still on the way
  (`ShellLimits.ExitCanPrecedeOutput`), or before the pump reads more (`TrueExitCanTurnFalse`); and a
  `close` that finds unread output drops it, after which a waiting read reports the end
  (`ClosingCanDropOutput`). The final answer stays true in every continuation if and only if the pump
  will never add output and `close` dropped nothing unrendered (`ShellEnd.FinalAnswerExact`).
- Clearing under the pump. `close` waits half a second for the pump and then clears the buffer
  without moving its start. If the buffer was not empty and the pump has read or may still read, what
  it stores next is misplaced (`ShellLimits.ClearingUnderThePumpCorrupts`, exactly when:
  `ShellEnd.ClosingMisplacesExactly`). That event is called `overrun`, and the output guarantees hold
  in every run without it; those that say where unread output is kept also need that `close` has
  dropped none (`dropped == 0`).
- The Hysteria cache examines the file before it takes the lock. That file signatures identify
  contents is not enough for current answers (`HysteriaCache.EqualContentsNotEnough`); the exact
  condition on the history of the file is `HysteriaCache.SignaturesTell`, sufficient by
  `LoadsAreCurrent` and necessary for every single history by `StaleOtherwise`. If besides a replaced
  signature never comes back, all is well (`NeverReusedSuffices`).
- The module docstring of the Hysteria authentication says fail-closed. `authenticate` can raise
  instead of refusing (`HysteriaUsers.RaisingInputs`): exactly when the comparison loop reaches a user
  it cannot compare before a match, or loading ends in an exception that is not caught
  (`RaisedExactly`), which is exactly when the file is nested too deep for the parser, the file or the
  first failing user is no object, or `users` is a non-empty string or object (`UncaughtExactly`).
- `cleanup` never shortens a lock in force, but it can keep later failed logins from locking
  (`StorageRuns.FifthFailureForgotten`), and then make one lock that would not have. Either can happen
  if and only if the address has fewer failures than lock it, the last of them more than a lockout ago
  (`CleanupForgetsExactly`, with the logins that show it in `LaterLoginsShow`).
- Two prepared updates can be ready at once (`UpdateRuns.TwoReady`; exactly when: `SecondReady`).

## Model

| member | source | states |
|---|---|---|
| `ShellSession.RootShellSession.StartStream` | portal/agent_handlers/shell.py:122-128 | a new transport takes the lease and touches nothing else of the stream |
| `ShellSession.Pty.Write` | portal/agent_handlers/shell.py:103-112 | one `os.write`: the terminal takes some prefix of what it is offered, or nothing |
| `ShellSession.RootShellSession.WriteBytes` | portal/agent_handlers/shell.py:97-120 | the terminal receives exactly the returned prefix of the data, each byte once; it ends early only if the session is closed, the terminal is gone or fails, or the deadline passes |
| `ShellSession.RootShellSession.PumpReserve` | portal/agent_handlers/shell.py:133-139 | the pump may read as much as the chunk limit and the room left in the buffer allow; 0, to wait, only if there is none |
| `ShellSession.RootShellSession.PumpStore` | portal/agent_handlers/shell.py:151-153 | a chunk read is appended to the buffer and nothing else changes |
| `ShellSession.RootShellSession.PumpEnd` | portal/agent_handlers/shell.py:154-159 | the pump's end closes the session and leaves the undelivered output in place |
| `ShellSession.RootShellSession.ReadBegin` | portal/agent_handlers/shell.py:161-176 | up to its wait a read drops exactly the acknowledged bytes; a lost lease or a cursor outside the buffer is refused and changes nothing |
| `ShellSession.RootShellSession.ReadEnd` | portal/agent_handlers/shell.py:177-183 | after its wait a read returns a prefix of the buffer, empty only if the buffer is, within the chunk limit |
| `ShellSession.RootShellSession.Write` | portal/agent_handlers/shell.py:185-207 | the terminal gets exactly the part of the chunk that earlier calls left over; a repeat is answered without writing, anything out of order is refused without writing |
| `ShellSession.RootShellSession.WriteOn` | portal/agent_handlers/shell.py:198-208 | the accepted chunk goes on where it was left, and what the terminal took is recorded |
| `ShellSession.OrderedWriteExactly` | portal/agent_handlers/shell.py:185-207 | which chunks are refused and why, how a repeat is answered, and what the session remembers of a chunk taken in part or in whole |
| `ShellSession.RootShellSession.Dispatch` | portal/agent_handlers/dispatcher.py:985-1002 | a chunk over the size limit or outside the number range never reaches the terminal; any other goes through the ordered write |
| `ShellSession.RootShellSession.CloseBegin` | portal/agent_handlers/shell.py:209-213 | closing first stops pump and writers |
| `ShellSession.RootShellSession.CloseEnd` | portal/agent_handlers/shell.py:248-249 | closing at last clears buffer and pending input without moving the start of the buffer |
| `ShellTransport.StreamWindow.NextRead` | portal/app/routes/shell_stream.py:66-74 | the next read is issued only when every frame sent is acknowledged, from exactly that position |
| `ShellTransport.StreamWindow.OnFrame` | portal/app/routes/shell_stream.py:76-82 | data goes out and moves `sent`; an empty answer of a closed session sends the exit message and stops |
| `ShellTransport.StreamWindow.OnAck` | portal/app/routes/shell_stream.py:132-138 | an acknowledgement outside the window ends the connection, any other moves the cursor |
| `ShellBrowser.CutChunk` | portal/app/static/root-shell.js:79-86 | a chunk is the longest run of whole characters within 3500 bytes, never empty when there is input |
| `ShellBrowser.FittingBound` | portal/app/static/root-shell.js:81-86 | the characters that fit are within the limit, and one more would not be |
| `ShellBrowser.EncodeSplit` | portal/app/static/root-shell.js:87-89 | cutting the queue in two loses and reorders no byte |
| `ShellBrowser.RootShellPage.FlushInput` | portal/app/static/root-shell.js:76-92 | a chunk is cut only when none is pending, under the next number, from the front of the queue; a connected page then sends the pending chunk, new or not |
| `ShellBrowser.RootShellPage.OnData` | portal/app/static/root-shell.js:93-106 | input is queued whole or not at all, and starts the timer unless a chunk is pending |
| `ShellBrowser.RootShellPage.Receive` | portal/app/static/root-shell.js:116-155 | what each message of the current socket does: the greeting resumes the input, a frame is shown, acknowledged again or the end, an acknowledgement brings the next chunk, the rest after a while, or the end |
| `ShellBrowser.RootShellPage.Acknowledged` | portal/app/static/root-shell.js:141-149 | only the pending chunk can be acknowledged; a complete one is followed by the next, of an incomplete one the rest is sent when the timer fires, and the end stops the page |
| `ShellBrowser.RootShellPage.WriteCallback` | portal/app/static/root-shell.js:135-140 | when the terminal has processed a frame the cursor moves, and the frame is acknowledged if it came over the current socket |
| `ShellBrowser.RootShellPage.StopPage` | portal/app/static/root-shell.js:61-75 | stopping forgets pending and queued input and the socket, not what was rendered |
| `ShellOutput.StepKeeps` | portal/agent_handlers/shell.py:122-183 | every step of pump, agent, any connection and browser keeps the output invariant: nothing lost, every frame on any connection genuine, nobody asks beyond what was rendered |
| `ShellOutput.EveryRunBounded` | portal/agent_handlers/shell.py:133-153 | in every run the room the pump reserved is still there when it stores |
| `ShellEnd.EveryRunSound` | portal/agent_handlers/shell.py:122-183 | output and end-of-session invariants hold in every state of every run without an overrun |
| `ShellEnd.RenderedExactlyOnce` | portal/agent_handlers/shell.py:161-183 | through drops, overlapping and late connections and lease takeover, the bytes rendered are a prefix of the bytes produced, and unless `close` dropped output the rest is exactly the unacknowledged buffer and the pump's hand |
| `ShellEnd.BufferBounded` | portal/agent_handlers/shell.py:130-153 | buffer and the pump's hand together never exceed the buffer limit in any interleaving |
| `ShellEnd.NewestStaysInStep` | portal/agent_handlers/shell.py:161-168 | the newest connection's cursor always lies inside the buffer, unless `close` dropped output, so a read or attach it has issued can only be refused for a lost lease |
| `ShellEnd.NoFrameIsDropped` | portal/app/static/root-shell.js:128-140 | every frame that reaches the browser on its socket continues the rendering; it is never dropped and never stops the page |
| `ShellEnd.ExitAfterLastByte` | portal/app/routes/shell_stream.py:75-82 | when the pump's end of output closed the session and an exit message was sent, every produced byte was rendered if and only if `close` dropped nothing unrendered, which for the page's own connection means dropped nothing |
| `ShellEnd.FinalAnswerExact` | portal/agent_handlers/shell.py:175-183 | whatever closed the session, after the final answer all output is rendered in every continuation if and only if the pump will never add any and `close` dropped nothing unrendered |
| `ShellEnd.ClosingMisplacesExactly` | portal/agent_handlers/shell.py:209-249 | a close over a live pump leaves later output in its place exactly if the buffer it cleared was empty |
| `ShellInput.InputKept` | portal/agent_handlers/shell.py:185-207 | every step keeps the input invariant: channels carry only logged chunks under their own numbers, in order, and only completed ones are acknowledged |
| `ShellInput.EveryRunInput` | portal/agent_handlers/shell.py:185-207 | the input invariant holds in every state of every run, torn down or not |
| `ShellInput.InputExactlyOnce` | portal/agent_handlers/shell.py:185-207 | the terminal has taken the numbered chunks once each and in order, then a beginning of the next: a prefix of what was typed, through partial writes, lost acknowledgements, resends and lease changes |
| `ShellInput.IdleMeansAllTaken` | portal/app/static/root-shell.js:76-106 | when nothing is queued or pending, everything typed has been taken |
| `ShellInput.RetransmissionUnderstood` | portal/agent_handlers/shell.py:187-201 | a chunk or its retransmission by the lease holder is never refused as altered or out of order |
| `ShellFlow.OutputNeverStalls` | portal/app/routes/shell_stream.py:62-85 | in every reachable state, while the window is closed, the last frame, its rendering or its acknowledgement is on its way |
| `ShellFlow.InputNeverStalls` | portal/app/static/root-shell.js:76-147 | in every reachable state queued input waits for a pending chunk or the timer, and the pending chunk waits for the timer, or it, its write or its acknowledgement is on its way |
| `ShellFlow.PendingIsSent` | portal/app/static/root-shell.js:76-92 | whenever the timer fires, the greeting comes or the pending chunk is complete, the chunk then pending is the last thing sent; with none pending nothing is left to send |
| `ShellFlow.RestIsSentAgain` | portal/app/static/root-shell.js:141-148 | after an incomplete acknowledgement by a living session the chunk stays pending and the timer runs |
| `ShellFlow.AnswersArePassedOn` | portal/app/routes/shell_stream.py:62-145 | each call of the portal is made with what arrived, and each answer is passed on once |
| `ShellLimits.ExitCanPrecedeOutput` | portal/agent_handlers/shell.py:107-110 | a reachable run in which a failed write closes the session and the exit message is sent before all output was rendered |
| `ShellLimits.TrueExitCanTurnFalse` | portal/agent_handlers/shell.py:107-132 | a reachable exit message that is true when sent and false two steps of the pump later |
| `ShellLimits.ClosingCanDropOutput` | portal/agent_handlers/shell.py:175-249 | a reachable run in which the pump ended regularly, `close` drops what was not shown, and the exit message is sent |
| `ShellLimits.ClearingUnderThePumpCorrupts` | portal/agent_handlers/shell.py:209-249 | a reachable run in which `close` clears the buffer under a live pump and the browser renders what is no prefix |
| `StateStore.StateFileLock.Enter` | tools/kvnlib/core/io.py:40-66 | takes both locks or, on timeout or failure, neither, and succeeds exactly if a turn of the loop is granted before the deadline |
| `StateStore.StateFileLock.Exit` | tools/kvnlib/core/io.py:78-94 | releases exactly what was taken; a second exit does nothing |
| `StateStore.JsonStateStore.Save` | tools/kvnlib/core/io.py:153-157 | writes unless an expected revision differs from that of the file |
| `StateStore.JsonStateStore.Update` | tools/kvnlib/core/io.py:159-173 | one atomic transaction: a conflict on a differing revision, an abort if the mutator raises, both without writing; otherwise the new state, or no change |
| `StoreRuns.StepKept` | tools/kvnlib/core/io.py:34-183 | every step of any thread of any process, timeouts, failures, kills and power loss included, keeps locks, history chain and durable links consistent |
| `StoreRuns.EveryRun` | tools/kvnlib/core/io.py:34-183 | that invariant holds in every state of every run |
| `StoreRuns.Serializable` | tools/kvnlib/core/io.py:148-183 | in every run the file shows the last state of a history in which each transaction replaced exactly the state it loaded and, if it named a revision, the state of that revision |
| `StoreRuns.MutualExclusion` | tools/kvnlib/core/io.py:40-94 | one holder of the file lock, one of the thread lock per process; whoever timed out holds neither |
| `StoreRuns.PowerLossSafe` | tools/kvnlib/core/io.py:110-131 | after power loss at any step the file is a whole state of the history, no older than the last acknowledged commit |
| `StoreRuns.AcknowledgedForGood` | tools/kvnlib/core/io.py:121-128 | the history up to the last acknowledged commit never changes |
| `StoreRuns.ReturnedForGood` | tools/kvnlib/core/io.py:110-131 | what a transaction that returned had committed stays in the history, as written, whatever happens later |
| `StoreRuns.DecidesAtomically` | tools/kvnlib/core/io.py:159-173 | although other clients run in between, an update decides as one atomic transaction on the state the file shows at that moment |
| `StoreRuns.RaisesAtomically` | tools/kvnlib/core/io.py:159-173 | a mutator that raises ends the transaction as one atomic transaction would, and the file stays |
| `StoreRuns.LoadsWhatIsVisible` | tools/kvnlib/core/io.py:148-165 | a transaction loads what the file shows; a named revision that differs ends it as a conflict |
| `StoreRuns.ReturnsItsResult` | tools/kvnlib/core/io.py:40-94 | a transaction that is through gives back its locks and returns the result it came to; a timeout is reported as one |
| `StoreRuns.ReplacesAtomically` | tools/kvnlib/core/io.py:110-128 | the replacement is put over exactly the state it was decided on |
| `MigrationPreviews.MigrationPreviews.Purge` | portal/control/migration.py:32-35 | removes exactly the expired entries |
| `MigrationPreviews.MigrationPreviews.Expire` | portal/control/migration.py:37-41 | a timer removes its entry only once it is due |
| `MigrationPreviews.MigrationPreviews.Register` | portal/control/migration.py:55-66 | registers exactly when fewer live entries than the capacity remain |
| `MigrationPreviews.MigrationPreviews.Redeem` | portal/control/migration.py:82-90 | hands out and removes an entry exactly if it is live and the caller names its owner and brings its archive; others stay |
| `MigrationPreviews.MigrationPreviews.Cancel` | portal/control/migration.py:94-102 | removes an entry exactly if it is live and the caller names its owner; others stay |
| `PreviewRuns.CapacityRespected` | portal/control/migration.py:55-58 | the table never exceeds the capacity, in every run |
| `PreviewRuns.NeverReturns` | portal/control/migration.py:79-92 | a registration never changes, and an entry that left the table never returns |
| `PreviewRuns.HandedOverAsRecorded` | portal/control/migration.py:82-92 | what reaches the commit callback is exactly the recorded entry, for its owner and archive, before expiry |
| `PreviewRuns.HandedOverOnce` | portal/control/migration.py:88-92 | no preview reaches the commit callback twice |
| `PreviewRuns.PreviewPossible` | portal/control/migration.py:43-55 | exactly what is asked of a preview |
| `PreviewRuns.PreviewRegisters` | portal/control/migration.py:54-66 | a preview that finds room is registered for its owner, archive, mode and time |
| `PreviewRuns.OwnerIsServed` | portal/control/migration.py:79-92 | whatever others do, an owner who commits with the archive, in time and for the first time, reaches the commit callback with what was recorded |
| `PreviewRuns.CommitsWhatWasPreviewed` | tools/kvnlib/runtime/migration.py:147-160 | a commit that writes starts from the very state its preview saw and writes the very candidate computed then; it conflicts exactly when the state is another one |
| `PreviewRuns.CommittedIsThePlan` | tools/kvnlib/runtime/migration.py:154-160 | with the real planner, what changed the store is the plan of the previewed state |
| `MigrationBounds.CheckBounds` | tools/kvnlib/core/migration.py:53-78 | the walk with stack and counter ends on every value and accepts exactly those the recursive definition accepts |
| `MigrationBounds.Visit` | tools/kvnlib/core/migration.py:57-78 | one turn judges a value alone and pushes exactly its children |
| `MigrationBounds.PushFields` | tools/kvnlib/core/migration.py:64-67 | in whatever order fields are visited, the stack grows by exactly their nodes |
| `MigrationBounds.PushItems` | tools/kvnlib/core/migration.py:68-71 | a list's items are pushed completely, one level deeper |
| `MigrationBounds.FieldsAnyOrder` | tools/kvnlib/core/migration.py:64-67 | counting an object's nodes does not depend on the order of its fields |
| `MigrationBounds.BoundedExactly` | tools/kvnlib/core/migration.py:53-79 | exactly what is accepted: the number of values, and for everything found inside the value at any depth its kind, size and depth |
| `MigrationSchema.UsersAreKeySets` | tools/kvnlib/core/migration.py:138-196 | the declarative validity of a user list says the same as disjoint, non-empty, unreserved key sets |
| `MigrationSchema.UsersValidExactly` | tools/kvnlib/core/migration.py:135-197 | exactly when a list of users is valid: well formed, none with a reserved name or key, no two with the same folded name, identifier, token, VPN key or address |
| `MigrationSchema.UserTexts` | tools/kvnlib/core/migration.py:141-164 | the fields of a well-formed user, its name, identifier and token |
| `MigrationSchema.UserSystems` | tools/kvnlib/core/migration.py:165-167 | its systems are known and distinct |
| `MigrationSchema.UserParts` | tools/kvnlib/core/migration.py:168-190 | the fields of its overrides and peers |
| `MigrationSchema.HeaderFields` | tools/kvnlib/core/migration.py:103-112 | the five fields of an archive, its format and version |
| `MigrationSchema.SectionIsKnown` | tools/kvnlib/core/migration.py:112-134 | sections and their fields are known ones |
| `MigrationSchema.PlainIsValid` | tools/kvnlib/core/migration.py:103-197 | an archive with one user of an allowed name and nothing else is valid |
| `MigrationCheck.AdmitPeer` | tools/kvnlib/core/migration.py:172-190 | per peer system, a user passes exactly if key and address are new, and both are then collected |
| `MigrationCheck.AdmitOwn` | tools/kvnlib/core/migration.py:143-164 | a user passes exactly if folded name, UUID and token are new, and all are then collected |
| `MigrationCheck.Admit` | tools/kvnlib/core/migration.py:141-190 | the loop body admits exactly the well-formed users that share no key with those before |
| `MigrationCheck.CollectUsers` | tools/kvnlib/core/migration.py:138-190 | the loop succeeds exactly if all users are well formed and pairwise share nothing, and then the sets hold exactly their keys |
| `MigrationCheck.CheckReserved` | tools/kvnlib/core/migration.py:191-196 | no collected name is an extra Telemt account, no collected key a server key |
| `MigrationCheck.CheckUsers` | tools/kvnlib/core/migration.py:135-196 | accumulating decides exactly the declarative validity of the user list |
| `MigrationCheck.Validate` | tools/kvnlib/core/migration.py:103-197 | accepts exactly the valid archives |
| `MigrationPlan.RestoreSections` | tools/kvnlib/core/migration.py:210-217 | in whatever order sections are visited, each replaces the target's but for an `enabled` flag the target had |
| `MigrationPlan.CheckNetwork` | tools/kvnlib/core/migration.py:229-241 | tells a network that cannot be read from a peer that lies outside it or on the address of the server, the network or the broadcast, and passes exactly otherwise |
| `MigrationPlan.VerdictExactly` | tools/kvnlib/core/migration.py:228-241 | the same of the specification |
| `MigrationPlan.PlanMigration` | tools/kvnlib/core/migration.py:200-242 | the planner returns the specified plan or the specified kind of failure |
| `MigrationLaws.UsersValidWithin` | tools/kvnlib/core/migration.py:138-196 | validity of users survives reordering and dropping some |
| `MigrationLaws.ValidWithin` | tools/kvnlib/core/migration.py:103-197 | so does the validity of a whole archive, size limits included |
| `MigrationLaws.AdmitsWithin` | tools/kvnlib/core/migration.py:222-242 | what a target admits it admits in any order and with users left out |
| `MigrationLaws.MergeTwoIs` | tools/kvnlib/core/migration.py:219-242 | two merges in a row succeed exactly when the target admits all users at once |
| `MigrationLaws.MergesCommute` | tools/kvnlib/core/migration.py:200-242 | merges commute: in either order both succeed or neither, and the results differ only in the order of users |
| `MigrationLaws.PlannedIsSound` | tools/kvnlib/core/migration.py:222-242 | planned states have valid, distinct users, every peer address in its network and not that of the server, the network or the broadcast, and other entries unchanged |
| `MigrationLaws.PlannedState` | tools/kvnlib/core/migration.py:203-223 | the planned state entry by entry, with the `enabled` flags a restore keeps |
| `MigrationLaws.PlansExactly` | tools/kvnlib/core/migration.py:200-242 | exactly when there is a plan |
| `MigrationLaws.CandidateIs` | tools/kvnlib/core/migration.py:220-227 | the state is checked again with its own users and all of its own sections |
| `MigrationExport.ExportRestoreRoundTrip` | tools/kvnlib/exports/migration.py:11-45 | exporting and restoring gives back users and sections, but for `enabled` flags the target had set, and leaves all other target entries unchanged |
| `MigrationExport.RestoredCarriesOver` | tools/kvnlib/core/migration.py:210-218 | what a restored state takes from the archive and what from the target |
| `MigrationExport.FreshRestoreSucceeds` | tools/kvnlib/core/migration.py:207-242 | restoring an export on a fresh target succeeds if and only if its two networks parse and hold every peer |
| `MigrationExport.ChosenExact` | tools/kvnlib/exports/migration.py:23-30 | a selection takes exactly the users whose folded name is selected |
| `MigrationExport.SelectedUsersExported` | tools/kvnlib/exports/migration.py:11-45 | a selection exports for each selected name the one user of that name and nobody else |
| `MigrationExport.SelectedSectionsExported` | tools/kvnlib/exports/migration.py:11-45 | and the sections without the separate Telemt accounts |
| `MigrationExport.BuildsExactly` | tools/kvnlib/exports/migration.py:11-45 | when a full export succeeds, and what it is |
| `MigrationExport.ServerComplete` | tools/kvnlib/core/migration.py:245-288 | which keys of the server a complete archive has |
| `MigrationExport.SecretsExactly` | tools/kvnlib/core/migration.py:278-283 | which secrets each user has |
| `MigrationExport.PeerExactly` | tools/kvnlib/core/migration.py:284-288 | and what each of its VPN peers has |
| `DashboardCache.DashboardSnapshotCache.Expired` | portal/agent_handlers/dispatcher.py:228-231 | lists exactly the sources that are due, in the fixed order |
| `DashboardCache.DashboardSnapshotCache.Get` | portal/agent_handlers/dispatcher.py:225-242 | starts a refresh of exactly the due sources if none is running, and shows the cache as it then is; if it starts none and none runs, no source is due |
| `DashboardCache.DashboardSnapshotCache.SnapshotLocked` | portal/agent_handlers/dispatcher.py:295-319 | the view of every source; `ok` only if none is stale, `loading` exactly if there is no data at all |
| `DashboardCache.DashboardSnapshotCache.Invalidate` | portal/agent_handlers/dispatcher.py:248-256 | every known name is due from now on, no data is lost, unknown names are skipped |
| `DashboardCache.DashboardSnapshotCache.StoreFailure` | portal/agent_handlers/dispatcher.py:271-280 | data and time of the last load are kept, the error is recorded, and a retry is due in 15 seconds, or at once after an invalidation in flight |
| `DashboardCache.DashboardSnapshotCache.StoreSuccess` | portal/agent_handlers/dispatcher.py:282-288 | the result is stored and is due again after the lifetime of its source, or at once after an invalidation in flight |
| `DashboardCache.DashboardSnapshotCache.Finish` | portal/agent_handlers/dispatcher.py:289-293 | the end of a refresh releases the waiters |
| `DashboardCache.InvalidateMeans` | portal/agent_handlers/dispatcher.py:248-256 | invalidating raises the generation of exactly the known names and makes exactly those sources due |
| `DashboardCache.ViewMeans` | portal/agent_handlers/dispatcher.py:295-320 | what is shown of each source, and when it is stale |
| `DashboardRuns.StepKept` | portal/agent_handlers/dispatcher.py:225-293 | every step of readers, invalidations and refresh threads keeps single flight and generation bookkeeping |
| `DashboardRuns.OneRefresh` | portal/agent_handlers/dispatcher.py:232-241 | at most one refresh works at a time, and waiters are released exactly when none does |
| `DashboardRuns.NoInvalidationLost` | portal/agent_handlers/dispatcher.py:258-288 | at any moment after an invalidation, the source is due, or what the cache holds of it was last stored by a load attempt that began after that invalidation |
| `DashboardRuns.DueExactly` | portal/agent_handlers/dispatcher.py:248-293 | in every run each source is due from exactly one moment on: a lifetime after its last successful load, 15 seconds after a failed one, at once if it was invalidated since that load began |
| `DashboardRuns.OldDataKept` | portal/agent_handlers/dispatcher.py:271-288 | a source shows data and time of its last successful load, with an error exactly if an attempt failed since |
| `DashboardRuns.FreshMeansFresh` | portal/agent_handlers/dispatcher.py:295-319 | what is shown as not stale is the result of a last attempt that succeeded, younger than its lifetime or being refreshed |
| `HysteriaUsers.BuildUsers` | portal/app/hysteria_auth.py:24-31 | the loop builds the specified dictionary or ends with the specified kind of exception |
| `HysteriaUsers.SetMeans` | portal/app/hysteria_auth.py:31 | an assignment replaces that name in its place or appends it, and keeps the rest |
| `HysteriaUsers.ListedExactly` | portal/app/hysteria_auth.py:25-31 | exactly the enabled users of Hysteria with a password and a text as name are listed under it |
| `HysteriaUsers.CollectMeans` | portal/app/hysteria_auth.py:25-31 | loading succeeds exactly if no entry fails, and the users are exactly the last ones the file gives for their names |
| `HysteriaUsers.FirstFailureDecides` | portal/app/hysteria_auth.py:25-31 | the kind of exception is that of the first user that fails |
| `HysteriaUsers.UncaughtExactly` | portal/app/hysteria_auth.py:24-41 | loading ends in an uncaught exception exactly if the text is nested too deep, the file is no object, its users are a non-empty string or object, or the first user that fails is no object |
| `HysteriaUsers.Find` | portal/app/hysteria_auth.py:44-49 | the loop decides as the specification, first match or first failing comparison |
| `HysteriaUsers.DecideMeans` | portal/app/hysteria_auth.py:44-49 | accepted exactly if a user matches and every one up to it can be compared; refused exactly if all can be compared and none matches |
| `HysteriaUsers.AcceptedIsAUser` | portal/app/hysteria_auth.py:36-49 | nobody is accepted but with a user's name and password, and no name with a colon ever is |
| `HysteriaUsers.AcceptedExactly` | portal/app/hysteria_auth.py:36-49 | with ASCII names and passwords the outcome is exactly membership, whatever the order |
| `HysteriaUsers.AcceptedIsEnabled` | portal/app/hysteria_auth.py:24-49 | whoever is accepted is an enabled Hysteria user of the file, by the last entry of that name |
| `HysteriaUsers.EnabledIsAccepted` | portal/app/hysteria_auth.py:24-49 | and with ASCII names and passwords all of them are accepted |
| `HysteriaUsers.RaisedExactly` | portal/app/hysteria_auth.py:36-49 | authentication raises exactly if loading ended in an uncaught exception, or a user whose name is no text precedes every match, or one while anything compared is not ASCII |
| `HysteriaUsers.RaisingInputs` | portal/app/hysteria_auth.py:36-49 | four inputs on which authentication raises |
| `HysteriaCache.HysteriaUserCache.LoadLocked` | portal/app/hysteria_auth.py:21-34 | a known signature answers from the cache; a failed load leaves the cache as it was |
| `HysteriaCache.HysteriaUserCache.Authenticate` | portal/app/hysteria_auth.py:36-49 | an undisturbed call decides on what the cache or the file gives |
| `HysteriaCache.EveryRun` | portal/app/hysteria_auth.py:18-34 | in every run what is cached was read from the version of its signature or a later one |
| `HysteriaCache.LoadsAreCurrent` | portal/app/hysteria_auth.py:18-34 | if signatures tell, every call returns what some version held during that call contains |
| `HysteriaCache.StaleOtherwise` | portal/app/hysteria_auth.py:18-34 | if they do not, for any history two calls suffice for an answer that no version held during the call contains |
| `HysteriaCache.EqualContentsNotEnough` | portal/app/hysteria_auth.py:19-23 | equal signatures meaning equal contents does not suffice: a history A, B, A |
| `HysteriaCache.NeverReusedSuffices` | portal/app/hysteria_auth.py:18-34 | if signatures identify contents and a replaced signature never comes back, then in every run every call returns what some version held during it contains |
| `PortalStorage.PortalStorage.CreateSession` | portal/app/storage.py:129-146 | a session starts with both deadlines and a cut user agent; a known token is refused |
| `PortalStorage.PortalStorage.GetSession` | portal/app/storage.py:148-172 | a session is found exactly by its token, from its address and program, while neither deadline has passed, and is touched; if only a deadline has passed it is deleted; others stay |
| `PortalStorage.PortalStorage.InvalidateSession` | portal/app/storage.py:174-177 | removes exactly that session |
| `PortalStorage.PortalStorage.CreateConfirmation` | portal/app/storage.py:445-454 | a confirmation starts unused with its lifetime |
| `PortalStorage.PortalStorage.ConsumeConfirmation` | portal/app/storage.py:455-481 | succeeds exactly for an unused, unexpired row with the same session, action and subject; then it is used and nothing can consume it again |
| `PortalStorage.PortalStorage.RecordFailure` | portal/app/storage.py:191-208 | counts on, or from one after an expired lock, locks from the fifth failure and reports the lock that then holds; other addresses keep theirs |
| `PortalStorage.PortalStorage.Cleanup` | portal/app/storage.py:284-298 | deletes exactly the specified rows of the three tables; no lock and no session that can be found changes |
| `PortalStorage.PortalStorage.List` | portal/app/storage.py:357-359 | every row once, newest first |
| `PortalStorage.PortalStorage.PublishPreparedUpdate` | portal/app/storage.py:312-380 | busy while the archive is being started; otherwise the new row is the only ready one, and the replaced rows are returned newest first |
| `PortalStorage.PortalStorage.ClaimPreparedUpdate` | portal/app/storage.py:394-405 | only a ready update is claimed |
| `PortalStorage.PortalStorage.ReleasePreparedUpdate` | portal/app/storage.py:407-414 | only a starting update is released |
| `PortalStorage.PortalStorage.FinishPreparedUpdate` | portal/app/storage.py:416-427 | only a starting update is finished |
| `PortalStorage.PortalStorage.DiscardPreparedUpdate` | portal/app/storage.py:429-439 | only a ready update is discarded |
| `PortalStorage.PortalStorage.RemovePreparedUpdateByArchive` | portal/app/storage.py:441-443 | removes every row of the archive |
| `UpdateRuns.PublishNeverCollides` | portal/app/storage.py:345-375 | in every reachable table archives are unique and a publication inserts its row unless the archive is busy: the insertion cannot collide |
| `UpdateRuns.ProperLives` | portal/app/storage.py:394-427 | each update's statuses are (ready, starting)*, possibly ending in started |
| `UpdateRuns.NeverComesBack` | portal/app/storage.py:312-443 | an update that left the table never comes back |
| `UpdateRuns.NotReadyUntilReleased` | portal/app/storage.py:394-414 | after a claim the row is not ready until a successful release |
| `UpdateRuns.ClaimedOnce` | portal/app/storage.py:394-405 | between two successful claims of an update lies a successful release |
| `UpdateRuns.SecondReady` | portal/app/storage.py:407-414 | a second ready row appears exactly if an update is released while another is ready |
| `UpdateRuns.TwoReady` | portal/app/storage.py:312-414 | and it does: claim one, publish another, release the first |
| `StorageRuns.GetSessionCovers` | portal/app/storage.py:148-172 | a session lookup answers the same on cleaned tables and leaves them in step |
| `StorageRuns.CleanupChangesNoAnswer` | portal/app/storage.py:284-298 | removing every cleanup from a run with a nondecreasing clock changes no answer about sessions and confirmations |
| `StorageRuns.ConsumedOnce` | portal/app/storage.py:455-481 | a confirmation succeeds at most once, cleanups included |
| `StorageRuns.ConsumedAsMade` | portal/app/storage.py:445-481 | it succeeds only for the session, action and subject it was made for, within its lifetime |
| `StorageRuns.RowsAlwaysFit` | portal/app/storage.py:191-208 | in every reachable table counter and deadline of an address agree |
| `StorageRuns.LocksLast` | portal/app/storage.py:183-208 | a lock in force is never shortened but by an explicit clearing, cleanups included |
| `StorageRuns.CleanupForgets` | portal/app/storage.py:291-294 | the very next failed login is told something else after a cleanup exactly for an address one failure short of the lock whose last failure is more than a lockout ago |
| `StorageRuns.CleanupForgetsExactly` | portal/app/storage.py:183-294 | some later calls find a shorter lock after a cleanup than without it, and some find a longer one, each exactly if the address has fewer failures than lock it, the last more than a lockout ago |
| `StorageRuns.LaterLoginsShow` | portal/app/storage.py:191-294 | failed logins that show it: the one that would have locked does not, and the fifth, a lockout after four that would have locked, does |
| `StorageRuns.FifthFailureForgotten` | portal/app/storage.py:191-294 | a run in which a cleanup keeps the fifth failed login from locking |
| `ApplyPlan.MergeServiceChange` | tools/kvnlib/runtime/plan.py:135-156 | one request merged, its path put in order; an unknown service is restarted |
| `ApplyPlan.PriorityExactly` | tools/kvnlib/runtime/plan.py:16-21 | a restart outranks a reload, a reload a hot update |
| `Ordering.SortedStrings` | tools/kvnlib/runtime/plan.py:161-163 | `sorted` of a set of paths: each once, in the order of strings |
| `Ordering.BelowExactly` | tools/kvnlib/runtime/plan.py:161-163 | the order of strings is that of their first difference |
| `ApplyPlan.MergedIsMaximal` | tools/kvnlib/runtime/plan.py:145-156 | after any requests a service has exactly their paths, the highest action and the reason of the first that needed it |
| `ApplyPlan.OrderIndependent` | tools/kvnlib/runtime/plan.py:145-156 | order and repetition of requests matter to neither services, actions nor path lists |
| `ApplyPlan.FindRule` | tools/kvnlib/runtime/plan.py:166-169 | the first rule whose path the changed path equals or lies under |
| `ApplyPlan.FirstRuleExactly` | tools/kvnlib/runtime/plan.py:166-169 | the same of the specification |
| `ApplyPlan.BuildChangeSet` | tools/kvnlib/runtime/plan.py:159-170 | the changed paths are exactly the differing ones in order; each service has exactly its changed paths in order, the maximum of their actions and a reason of that maximum |
| `ApplyPlan.PlanMeans` | tools/kvnlib/runtime/plan.py:159-170 | what a plan asks of a service: something exactly if a changed path concerns it, no less than any and no more than one of its paths needs |
| `ApplyPlan.RulesAreConsistent` | tools/kvnlib/runtime/plan.py:120-132 | in the rule table every service is known, and service and action determine the reason |
| `ApplyPlan.PlanIsUnique` | tools/kvnlib/runtime/plan.py:164-170 | the changed paths alone determine the whole plan |
| `ApplyPlan.PlansCompose` | tools/kvnlib/runtime/plan.py:159-170 | going from a to c asks no more of a service than the larger of a to b and b to c, for paths in their union |
| `ApplyPlan.UndoingAsksTheSame` | tools/kvnlib/runtime/plan.py:161-170 | a change and its undoing ask for the same plan |
| `Metrics.ValidateQuery` | portal/metrics.py:90-101 | exactly which ranges and steps are accepted and which step is chosen for a range, and that the step then divides the range into fewer than 1500 parts |
| `Metrics.MetricsStore.Record` | portal/metrics.py:71-80 | a sample replaces one of its second; exactly the samples past the retention go |
| `Metrics.MetricsStore.GroupRows` | portal/metrics.py:113-116 | every bucket holds exactly its rows, in order, and no bucket is empty |
| `Metrics.Rounded` | portal/metrics.py:122 | rounding goes to a thousandth at most half a thousandth away |
| `Metrics.MetricsStore.Points` | portal/metrics.py:117-123 | the points are the series of the rows: ascending, one for each bucket with rows, showing its rounded means |
| `Metrics.MetricsStore.Query` | portal/metrics.py:103-130 | the answer is the whole series of the window, the final cut drops no point, and it is available exactly if the window has a sample |
| `Metrics.EverySampleShown` | portal/metrics.py:103-123 | every sample of the last so many hours is in the point of its step |
| `Metrics.NothingElseShown` | portal/metrics.py:103-123 | every point has such a sample |
| `Metrics.ExactlyOnePoint` | portal/metrics.py:113-119 | every sample of the window is in exactly one point, whose timestamp is a multiple of the step |
| `Metrics.FewPoints` | portal/metrics.py:105-129 | there are at most range * 60 / step + 1 points |
| `Metrics.Conserved` | portal/metrics.py:113-122 | whatever is summed over the samples is the sum over the points |
| `Metrics.MeansConserveSums` | portal/metrics.py:117-122 | the means shown, weighted with the number of their values, add up to the values of the window within half a thousandth per value |

## Left out

- ShellEnd.RenderedExactlyOnce: excludes runs with an `overrun`, where it is false (`ShellLimits.ClearingUnderThePumpCorrupts`), and says nothing of output that `close` dropped.
- ShellEnd.FinalAnswerExact: excludes runs with an `overrun`; so does ShellEnd.ExitAfterLastByte.
- ShellSession.RootShellSession.WriteBytes: the clock, `select` and the error numbers are an arbitrary list of events, the deadline being one of them.
- ShellSession.RootShellSession.CloseEnd: unit, process and descriptor handling are not modelled, nor `close` setting `closed` while another thread is inside a critical section.
- ShellBrowser.RootShellPage.FlushInput: how long the input timer runs is not modelled.
- ShellBrowser.RootShellPage.OnData: characters are their UTF-8 bytes; UTF-16 surrogates are not modelled.
- DashboardRuns.NoInvalidationLost: speaks of a source's own load attempt; `health_summary` is computed from a context that may hold an older `containers` value, so nothing transitive is claimed.
- DashboardCache.DashboardSnapshotCache.Get: a thread that cannot be started is not modelled.
- PreviewRuns.CommitsWhatWasPreviewed: the final validation callback is one deterministic predicate for preview and commit; identifiers are taken never to repeat.
- StorageRuns.CleanupChangesNoAnswer: session and confirmation tokens are taken never to repeat, and stand for their hashes.
- UpdateRuns.ProperLives: update identifiers are taken never to repeat.
- PortalStorage.PortalStorage.PublishPreparedUpdate: name, size, digest, kind and metadata of an archive are one opaque text.
- Metrics.MetricsStore.Query: floating-point arithmetic is that of real numbers.
- HysteriaUsers.CollectMeans: all names that are no text count as one key, where the dictionary keeps 1 and 2 apart; none of them is ever accepted, since comparing one raises.
- HysteriaUsers.UncaughtExactly: which nesting is too deep for the parser is not modelled, only that some text may be.
- HysteriaCache.LoadsAreCurrent: a version is replaced as a whole; reading a half-written file is not modelled.
- MigrationCheck.Validate: any exception counts as rejection, including the `TypeError` of a server key that cannot be looked up in a set.
- MigrationExport.ExportRestoreRoundTrip: an archive is identified with its JSON value; encoding and parsing of the text, and the limits on its size in bytes beyond one uninterpreted size, are not modelled.
- StoreRuns.Serializable: the platform is one with directory synchronisation and advisory locks; the Windows branches and file modes and owners are not modelled.
- Terminal, process, systemd and PAM calls, and the WebSocket library, beyond "takes or returns some prefix" and "delivers in order until dropped".
- The console's polling interface and its opposite lock order, deadlock freedom, resizing, rate limits, session expiry checks and worker shutdown.
- Lookup of a console by identifier and owner: after `close` the real lookup refuses calls that the model still lets run.
- SHA-256, HMAC and state revisions as byte formats: they are injective.
- SQLite: each method is one atomic transition on finite maps.
- GPG encryption and the backup files of the migration commands (a failed backup is modelled), protocol renderers, `kvnctl`: external programs and text output.
- The audit table, `latest_prepared_update`, `get_prepared_update` and the parsing of update metadata: nothing described here depends on them.
- The host metrics collector: its readings are the samples the history is given. `effective_service_plan`, version comparison, tickets and registries: nothing described here calls them.
- HTTP routes, templates, translations and the other scripts: user interface.
